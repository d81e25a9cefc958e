/** scripts/public-profile-backfill-types.ts: the rows of the legacy handle table,
    the rows of the new one, and the shared field checks. */
module ProfileTypes {
  import opened Outcomes

  datatype Status = Active | Redirect | Retired

  /** A legacy row; the eight fields that are never persisted are left out. */
  datatype SourceRow = SourceRow(id: string, user: string, slug: string, display: string, status: Status,
                                 target: Option<string>)

  datatype TargetUser = TargetUser(id: string, active: bool)

  datatype Handle = Handle(id: string, slug: string, display: string, status: Status, owner: string,
                           target: Option<string>)

  datatype Target = Target(users: seq<TargetUser>, handles: seq<Handle>)

  predicate Lower(c: char) { 'a' <= c <= 'z' || '0' <= c <= '9' }

  predicate Alphanumeric(c: char) { Lower(c) || 'A' <= c <= 'Z' }

  predicate IdChar(c: char) { Alphanumeric(c) || c == '.' || c == '_' || c == ':' || c == '-' }

  predicate ValidId(s: string) {
    1 <= |s| <= 256 && Alphanumeric(s[0]) && forall i | 0 <= i < |s| :: IdChar(s[i])
  }

  predicate SingleHyphens(s: string) {
    |s| < 2 || (!(s[0] == '-' && s[1] == '-') && SingleHyphens(s[1..]))
  }

  /** Runs of lower-case letters and digits, joined by single hyphens. */
  predicate Slug(s: string) {
    && s != []
    && (forall i | 0 <= i < |s| :: Lower(s[i]) || s[i] == '-')
    && s[0] != '-' && s[|s| - 1] != '-'
    && SingleHyphens(s)
  }

  predicate ValidLabel(slug: string, display: string) {
    Slug(slug) && |slug| <= 32 && display == slug + ".pirate"
  }

  /** A valid label and its display form also pass the id check of the snapshot parser. */
  lemma ValidLabelIsId(slug: string, display: string)
    requires ValidLabel(slug, display)
    ensures ValidId(slug) && ValidId(display)
  {
    var suffix := ".pirate";
    forall i | 0 <= i < |display| ensures IdChar(display[i]) {
      if i >= |slug| { assert display[i] == suffix[i - |slug|]; }
    }
  }

  function Get<V>(m: map<string, V>, key: string): Option<V> {
    if key in m then Some(m[key]) else None
  }

  /** A strict total order on strings; `localeCompare` is used as one. */
  ghost predicate StrictTotal(less: (string, string) -> bool) {
    && (forall a, b :: !(less(a, b) && less(b, a)))
    && (forall a, b, c :: less(a, b) && less(b, c) ==> less(a, c))
    && (forall a, b :: a != b ==> less(a, b) || less(b, a))
  }
}
