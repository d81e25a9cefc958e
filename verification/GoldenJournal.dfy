/** The journal of a golden run, scripts/megapot-golden-journal.ts: one writer appends
    states, one JSON text a line, and a new process goes on from the last line, or refuses.
    A write that is cut short leaves the beginning of its line behind. */
module GoldenJournal {
  import opened Outcomes

  datatype Attempt = Attempt(participantKey: string, sessionId: string, attemptId: string)

  datatype JournalState = JournalState(
    inputDigest: string,
    fundingHash: Option<string>,
    legId: Option<string>,
    fundingEffectId: Option<string>,
    drawingId: Option<string>,
    pending: Option<string>,
    completed: seq<string>,
    studySubmissions: nat,
    karaokeAttempts: nat,
    attempts: seq<Attempt>)

  function InitialState(digest: string, funding: Option<string>): JournalState {
    JournalState(digest, funding, None, None, None, None, [], 0, 0, [])
  }

  // ---- Lines ------------------------------------------------------------------------

  /** The white space and line ends that trimming removes. */
  predicate IsBlank(c: char) {
    || '\U{0009}' <= c <= '\U{000D}' || c == ' ' || c == '\U{00A0}' || c == '\U{1680}'
    || '\U{2000}' <= c <= '\U{200A}' || c == '\U{2028}' || c == '\U{2029}' || c == '\U{202F}'
    || c == '\U{205F}' || c == '\U{3000}' || c == '\U{FEFF}'
  }

  function TrimRight(s: string): string {
    if s != [] && IsBlank(s[|s| - 1]) then TrimRight(s[..|s| - 1]) else s
  }

  function TrimLeft(s: string): string {
    if s != [] && IsBlank(s[0]) then TrimLeft(s[1..]) else s
  }

  /** The text after the last line break. */
  function LastLine(s: string): string {
    if s == [] || s[|s| - 1] == '\n' then [] else LastLine(s[..|s| - 1]) + [s[|s| - 1]]
  }

  /** Nothing, or whole lines. */
  predicate LineStart(s: string) {
    s == [] || s[|s| - 1] == '\n'
  }

  /** A line that trimming leaves as it is. */
  predicate IsLine(s: string) {
    s != [] && '\n' !in s && !IsBlank(s[0]) && !IsBlank(s[|s| - 1])
  }

  predicate AllBlank(s: string) {
    forall i | 0 <= i < |s| :: IsBlank(s[i])
  }

  lemma {:induction false} TrimsBlanks(s: string, blanks: string)
    requires AllBlank(blanks) && s != [] && !IsBlank(s[|s| - 1])
    ensures TrimRight(s + blanks) == s
  {
    if blanks == [] {
      assert s + blanks == s;
    } else {
      assert (s + blanks)[..|s + blanks| - 1] == s + blanks[..|blanks| - 1];
      TrimsBlanks(s, blanks[..|blanks| - 1]);
    }
  }

  lemma {:induction false} TrimsToLine(head: string, line: string)
    requires LineStart(head) && IsLine(line)
    ensures LastLine(TrimLeft(head + line)) == line
  {
    if head != [] && IsBlank(head[0]) {
      assert (head + line)[1..] == head[1..] + line;
      TrimsToLine(head[1..], line);
    } else {
      assert (head + line)[0] == (if head == [] then line[0] else head[0]);
      LastLineIs(head, line);
    }
  }

  lemma {:induction false} LastLineIs(head: string, line: string)
    requires LineStart(head) && '\n' !in line
    ensures LastLine(head + line) == line
  {
    if line == [] {
      assert head + line == head;
    } else {
      var n := |line| - 1;
      assert (head + line)[..|head + line| - 1] == head + line[..n];
      LastLineIs(head, line[..n]);
      SplitLast(line);
    }
  }

  /** The last line of a text, blanks around the text trimmed. */
  function Last(s: string): string {
    LastLine(TrimLeft(TrimRight(s)))
  }

  lemma LastOf(head: string, line: string, blanks: string)
    requires LineStart(head) && IsLine(line) && AllBlank(blanks)
    ensures Last(head + line + blanks) == line
  {
    TrimsBlanks(head + line, blanks);
    TrimsToLine(head, line);
  }

  // ---- Records ----------------------------------------------------------------------

  /** Printing a state as JSON, and parsing and validating a line. */
  datatype Codec = Codec(encode: JournalState -> string, decode: string -> Option<JournalState>)

  /** What is used of the two: a printed state is a line of its own, it parses as itself,
      no beginning of it parses, and nothing parses that goes on after it with the beginning
      of another one. */
  ghost predicate Sound(c: Codec) {
    && (forall s :: IsLine(c.encode(s)) && c.decode(c.encode(s)) == Some(s))
    && c.decode([]) == None
    && (forall s, k :: 0 < k < |c.encode(s)| ==> c.decode(c.encode(s)[..k]) == None)
    && (forall a, b, k :: 0 < k <= |c.encode(b)| ==> c.decode(c.encode(a) + c.encode(b)[..k]) == None)
  }

  function Record(c: Codec, s: JournalState): string {
    c.encode(s) + "\n"
  }

  /** What a text is continued from: whole lines, or whole lines and a state whose line was
      not ended. */
  ghost predicate Appendable(c: Codec, text: string) {
    LineStart(text) || exists head, x :: LineStart(head) && text == head + c.encode(x)
  }

  /** What the last line parses as. */
  function Read(c: Codec, text: string): Option<JournalState> {
    c.decode(Last(text))
  }

  lemma BlankTail(s: string)
    ensures |TrimRight(s)| <= |s| && s[..|TrimRight(s)|] == TrimRight(s) && AllBlank(s[|TrimRight(s)|..])
    ensures TrimRight(s) != [] ==> !IsBlank(TrimRight(s)[|TrimRight(s)| - 1])
  {
  }

  lemma {:induction false} KeepsFirst(s: string)
    requires s != [] && !IsBlank(s[0])
    ensures TrimRight(s) != []
  {
    if |s| > 1 && IsBlank(s[|s| - 1]) {
      KeepsFirst(s[..|s| - 1]);
    }
  }

  /** A whole record after whole lines is read back. */
  lemma WholeAfterLines(c: Codec, head: string, s: JournalState, blanks: string)
    requires Sound(c) && LineStart(head) && AllBlank(blanks)
    ensures Read(c, head + c.encode(s) + blanks) == Some(s)
  {
    LastOf(head, c.encode(s), blanks);
  }

  /** A whole record, or a part of one, after a state whose line was not ended is not read as
      anything. */
  lemma AfterUnended(c: Codec, head: string, x: JournalState, s: JournalState, k: nat, blanks: string)
    requires Sound(c) && LineStart(head) && AllBlank(blanks) && 0 < k <= |c.encode(s)|
    ensures Read(c, head + c.encode(x) + (c.encode(s)[..k] + blanks)) == None
  {
    var p := c.encode(s)[..k];
    var q := TrimRight(p);
    BlankTail(p);
    assert p[0] == c.encode(s)[0];
    KeepsFirst(p);
    var line := c.encode(x) + q;
    assert q == c.encode(s)[..|q|];
    assert line[0] == c.encode(x)[0] && line[|line| - 1] == q[|q| - 1];
    var tail := p[|q|..] + blanks;
    assert head + c.encode(x) + (p + blanks) == head + line + tail;
    LastOf(head, line, tail);
  }

  /** A part of a record after whole lines is not read as anything. */
  lemma PartAfterLines(c: Codec, head: string, s: JournalState, k: nat)
    requires Sound(c) && LineStart(head) && 0 < k < |c.encode(s)|
    ensures Read(c, head + c.encode(s)[..k]) == None
  {
    var p := c.encode(s)[..k];
    var q := TrimRight(p);
    BlankTail(p);
    assert p[0] == c.encode(s)[0];
    KeepsFirst(p);
    assert q == c.encode(s)[..|q|];
    assert head + p == head + q + p[|q|..];
    LastOf(head, q, p[|q|..]);
  }

  /** The text after a save of which the first `k` characters became durable. */
  function Written(c: Codec, text: string, next: JournalState, k: nat): string
    requires k <= |Record(c, next)|
  {
    text + Record(c, next)[..k]
  }

  lemma WrittenAfterLines(c: Codec, text: string, next: JournalState, k: nat)
    requires Sound(c) && LineStart(text) && 0 < k <= |Record(c, next)|
    ensures Read(c, Written(c, text, next, k)) == if k < |c.encode(next)| then None else Some(next)
    ensures k >= |c.encode(next)| ==> Appendable(c, Written(c, text, next, k))
  {
    if k < |c.encode(next)| {
      assert Record(c, next)[..k] == c.encode(next)[..k];
      PartAfterLines(c, text, next, k);
    } else {
      var blanks := Record(c, next)[|c.encode(next)|..k];
      assert AllBlank(blanks) && Written(c, text, next, k) == text + c.encode(next) + blanks;
      WholeAfterLines(c, text, next, blanks);
      if blanks == [] {
        assert Written(c, text, next, k) == text + c.encode(next);
      }
    }
  }

  lemma WrittenAfterUnended(c: Codec, text: string, head: string, x: JournalState, next: JournalState, k: nat)
    requires Sound(c) && LineStart(head) && text == head + c.encode(x) && 0 < k <= |Record(c, next)|
    ensures Read(c, Written(c, text, next, k)) == None
    ensures k == |Record(c, next)| ==> Appendable(c, Written(c, text, next, k))
  {
    if k <= |c.encode(next)| {
      assert Record(c, next)[..k] == c.encode(next)[..k] + [];
      AfterUnended(c, head, x, next, k, []);
    } else {
      assert Record(c, next)[..k] == c.encode(next)[..|c.encode(next)|] + "\n";
      AfterUnended(c, head, x, next, |c.encode(next)|, "\n");
    }
  }

  /** However much of a save became durable: the text reads as before when nothing did, and
      otherwise as the state being saved or as nothing; whatever can be read can be continued,
      and so can the text of a whole save. */
  lemma SaveLeavesLastOrNext(c: Codec, text: string, next: JournalState, k: nat)
    requires Sound(c) && Appendable(c, text) && k <= |Record(c, next)|
    ensures var text' := Written(c, text, next, k);
            && (Read(c, text') == None || Read(c, text') == Some(next) || (k == 0 && text' == text))
            && (Read(c, text').Some? || k == |Record(c, next)| ==> Appendable(c, text'))
  {
    if k == 0 {
      assert Written(c, text, next, k) == text;
    } else if LineStart(text) {
      WrittenAfterLines(c, text, next, k);
    } else {
      var head, x :| LineStart(head) && text == head + c.encode(x);
      WrittenAfterUnended(c, text, head, x, next, k);
    }
  }

  // ---- The file ---------------------------------------------------------------------

  /** What a journal's text may read as: nothing, the last acknowledged state, or a state
      whose save was cut short. */
  ghost predicate ReadsAs(c: Codec, text: Option<string>, saved: Option<JournalState>, inFlight: Option<JournalState>) {
    if text.None? then saved.None? && inFlight.None?
    else
      Read(c, text.value).Some? ==>
        && Appendable(c, text.value)
        && (Read(c, text.value) == saved || Read(c, text.value) == inFlight)
  }

  class JournalFile {
    const c: Codec
    var text: Option<string>
    var locked: bool
    var state: JournalState
    ghost var saved: Option<JournalState>
    ghost var inFlight: Option<JournalState>

    constructor (c: Codec)
      ensures this.c == c && text == None && !locked && saved == None && inFlight == None
    {
      this.c := c;
      text, locked, state, saved, inFlight := None, false, InitialState("", None), None, None;
    }

    ghost predicate Valid()
      reads this
    {
      Sound(c) && ReadsAs(c, text, saved, inFlight)
    }

    /** A process holds the journal open. */
    ghost predicate Open()
      reads this
    {
      Valid() && locked && text.Some? && Appendable(c, text.value)
    }

    /** `save`: appends and syncs a line. The process may die in it, with any part of the line
        durable; `alive` tells that it did not. */
    method Save(next: JournalState) returns (alive: bool)
      requires Open()
      modifies this
      ensures Valid() && locked == old(locked)
      ensures alive ==> Open() && saved == Some(next) && inFlight == None && state == next
      ensures !alive ==>
                && saved == old(saved)
                && (inFlight == Some(next) || (inFlight == old(inFlight) && text == old(text)))
    {
      var record := Record(c, next);
      alive := *;
      if alive {
        SaveLeavesLastOrNext(c, text.value, next, |record|);
        assert record[..|record|] == record;
        text := Some(text.value + record);
        saved, inFlight, state := Some(next), None, next;
      } else {
        var k: int := *;
        if 0 < k <= |record| {
          SaveLeavesLastOrNext(c, text.value, next, k);
          text := Some(text.value + record[..k]);
          inFlight := Some(next);
        }
      }
    }

    /** The beginning of `withGoldenJournal`: the lock, the last state or a refusal, and a
        first save of it. Nothing is returned when the process does not get to run. */
    method Begin(digest: string, funding: Option<string>) returns (r: Option<JournalState>)
      requires Valid()
      modifies this
      ensures Valid()
      ensures old(locked) ==> r.None? && text == old(text) && saved == old(saved) && inFlight == old(inFlight)
      ensures r.Some? ==> Open() && state == r.value && saved == r && inFlight == None
      ensures r.Some? ==> Continues(old(text), old(saved), old(inFlight), digest, funding, r.value)
      ensures r.None? ==> saved == old(saved)
      ensures r.None? && inFlight != old(inFlight) ==>
                inFlight.Some? && Continues(old(text), old(saved), old(inFlight), digest, funding, inFlight.value)
    {
      if locked {
        return None;
      }
      locked := true;
      var next := InitialState(digest, funding);
      if text.Some? {
        var last := Read(c, text.value);
        if last.None? || last.value.inputDigest != digest
           || (last.value.fundingHash.Some? && last.value.fundingHash != funding)
        {
          locked := false;
          return None;
        }
        next := last.value.(fundingHash := funding);
      } else {
        text := Some("");
        EmptyIsUnreadable(c);
      }
      var alive := Save(next);
      if alive {
        r := Some(next);
      } else {
        r, locked := None, *;
      }
    }

    /** The end of `withGoldenJournal`, unless the process died: the lock is removed. */
    method End()
      requires Valid()
      modifies this`locked
      ensures !locked
    {
      locked := false;
    }
  }

  lemma EmptyIsUnreadable(c: Codec)
    requires Sound(c)
    ensures Read(c, "") == None && Appendable(c, "")
  {
  }

  /** What a process goes on from: the initial state when there was no journal, and otherwise
      the last acknowledged state or the one in flight, of this plan, with its funding
      transaction filled in. */
  ghost predicate Continues(text: Option<string>, saved: Option<JournalState>, inFlight: Option<JournalState>,
                            digest: string, funding: Option<string>, next: JournalState)
  {
    if text.None? then next == InitialState(digest, funding)
    else exists s ::
      (saved == Some(s) || inFlight == Some(s)) && s.inputDigest == digest && next == s.(fundingHash := funding)
  }
}
