/** Who was admitted to a golden drawing: the checks of
    scripts/megapot-golden-reconciliation.ts on the shares and decisions observed for the
    participants planned by scripts/megapot-golden-multi-input.ts. */
module GoldenAdmission {
  import opened Outcomes

  /** An account and one of its personas. */
  datatype Who = Who(account: string, persona: string)

  datatype Activity = Study | Karaoke

  function ActivityKey(a: Activity): string {
    if a.Study? then "study" else "karaoke"
  }

  /** `verified` stands for the expected admission "eligible", `lyrics` and `audio` for the
      presence of accepted lyrics and of a recorded performance. */
  datatype Participant = Participant(
    key: string,
    who: Who,
    credential: string,
    verified: bool,
    activities: seq<Activity>,
    lyrics: bool,
    audio: bool)

  datatype Scope = Scope(community: string, post: string, audioRevision: nat)

  datatype Qualification = Qualification(who: Who, activityKey: string)
  datatype Verdict = Verdict(who: Who, activityKey: string, outcome: string)

  datatype Admission = Admission(scope: Scope, shares: seq<Who>, qualifications: seq<Qualification>,
                                 verdicts: seq<Verdict>)

  /** The checks of `parseMultiGoldenInput` that the theorems need. */
  ghost predicate ValidPlan(participants: seq<Participant>) {
    && 2 <= |participants| <= 8
    && (forall i, j :: 0 <= i < j < |participants| ==>
          && participants[i].key != participants[j].key
          && participants[i].who.account != participants[j].who.account
          && participants[i].who.persona != participants[j].who.persona)
    && (forall i :: 0 <= i < |participants| ==> 1 <= |participants[i].activities| <= 2)
  }

  predicate Lower(c: char) { 'a' <= c <= 'z' }

  predicate Upper(c: char) { 'A' <= c <= 'Z' }

  predicate Digit(c: char) { '0' <= c <= '9' }

  predicate IsIdentifier(text: string) { 1 <= |text| <= 128 }

  predicate IsKey(text: string) {
    1 <= |text| <= 24 && Lower(text[0]) && forall c | c in text :: Lower(c) || Digit(c) || c == '-'
  }

  predicate IsCredentialKey(text: string) {
    1 <= |text| <= 41 && Upper(text[0]) && forall c | c in text :: Upper(c) || Digit(c) || c == '_'
  }

  predicate ParticipantParses(p: Participant) {
    && IsKey(p.key) && IsCredentialKey(p.credential)
    && IsIdentifier(p.who.account) && IsIdentifier(p.who.persona)
    && (|p.activities| == 1 || (|p.activities| == 2 && p.activities[0] != p.activities[1]))
  }

  /** What the mode of the run asks of a participant's material. */
  predicate HasMaterial(p: Participant, observeApp: bool) {
    if observeApp then !p.verified ==> p.activities == [Study] && p.lyrics
    else (Study in p.activities ==> p.lyrics) && (Karaoke in p.activities ==> p.audio)
  }

  /** All checks of `parseMultiGoldenInput` on the participants. */
  ghost predicate PlanParses(participants: seq<Participant>, observeApp: bool) {
    && ValidPlan(participants)
    && (forall i, j :: 0 <= i < j < |participants| ==> participants[i].credential != participants[j].credential)
    && (exists p :: p in participants && p.verified && Study in p.activities)
    && (exists p :: p in participants && p.verified && Karaoke in p.activities)
    && (exists p :: p in participants && !p.verified)
    && (forall p :: p in participants ==> ParticipantParses(p) && HasMaterial(p, observeApp))
  }

  // ---- Counting ---------------------------------------------------------------------

  function Times(whos: seq<Who>, w: Who): nat {
    if whos == [] then 0
    else Times(whos[..|whos| - 1], w) + (if whos[|whos| - 1] == w then 1 else 0)
  }

  function VerdictsFor(verdicts: seq<Verdict>, w: Who): nat {
    if verdicts == [] then 0
    else VerdictsFor(verdicts[..|verdicts| - 1], w) + (if verdicts[|verdicts| - 1].who == w then 1 else 0)
  }

  function Each<T>(items: seq<T>, who: T -> Who): (r: seq<Who>)
    ensures |r| == |items|
    ensures forall i :: 0 <= i < |items| ==> r[i] == who(items[i])
  {
    seq(|items|, i requires 0 <= i < |items| => who(items[i]))
  }

  function Whos(participants: seq<Participant>): seq<Who> {
    Each(participants, (p: Participant) => p.who)
  }

  // ---- The checks -------------------------------------------------------------------

  predicate Qualified(p: Participant, o: Admission) {
    forall a | a in p.activities :: Qualification(p.who, ActivityKey(a)) in o.qualifications
  }

  /** An activity of the participant. */
  predicate Planned(p: Participant, activityKey: string) {
    exists a | a in p.activities :: ActivityKey(a) == activityKey
  }

  predicate Admitted(p: Participant, o: Admission) {
    && Qualified(p, o)
    && exists v | v in o.verdicts :: v.who == p.who && v.outcome == "eligible" && Planned(p, v.activityKey)
  }

  /** `assertGoldenAdmission`: whether it does not throw. */
  predicate Asserts(scope: Scope, participants: seq<Participant>, o: Admission) {
    && o.scope == scope
    && |o.shares| == |participants|
    && (forall p | p in participants :: Times(o.shares, p.who) == 1)
    && (forall p | p in participants :: Admitted(p, o))
    && (forall p | p in participants :: VerdictsFor(o.verdicts, p.who) == 1)
  }

  /** The text that stands for an account and a persona in the duplicate check. */
  function JoinKey(w: Who): string {
    w.account + ":" + w.persona
  }

  predicate KeysDiffer(shares: seq<Who>) {
    forall i, j | 0 <= i < j < |shares| :: JoinKey(shares[i]) != JoinKey(shares[j])
  }

  /** The first participant with that account and persona. */
  function Find(participants: seq<Participant>, w: Who): Option<Participant> {
    if participants == [] then None
    else if participants[0].who == w then Some(participants[0])
    else Find(participants[1..], w)
  }

  /** The rows that contradict the plan. */
  predicate Contradicts(participants: seq<Participant>, o: Admission) {
    || |o.shares| > |participants|
    || (exists s | s in o.shares :: Times(Whos(participants), s) != 1)
    || !KeysDiffer(o.shares)
    || (exists v | v in o.verdicts ::
          v.outcome != "eligible" && Find(participants, v.who).Some?
            && Planned(Find(participants, v.who).value, v.activityKey))
    || (exists p | p in participants :: VerdictsFor(o.verdicts, p.who) > 1)
  }

  predicate Missing(participants: seq<Participant>, o: Admission) {
    |o.shares| < |participants| || exists p | p in participants :: !Admitted(p, o)
  }

  datatype Progress = Pending | Complete

  /** `goldenAdmissionProgress`: a failure stands for a throw, its own or the assertion's. */
  function AdmissionProgress(scope: Scope, participants: seq<Participant>, o: Admission): Result<Progress> {
    if o.scope != scope then Failure("Observed drawing scope changed.")
    else if Contradicts(participants, o) then Failure("Admission contains an unexpected share or decision.")
    else if Missing(participants, o) then Success(Pending)
    else if !Asserts(scope, participants, o)
      then Failure("Admission does not match the exact participant expectations.")
    else Success(Complete)
  }

  // ---- Pigeonholes ------------------------------------------------------------------

  ghost predicate AllDiffer<T(!new)>(items: seq<T>) {
    forall i, j :: 0 <= i < j < |items| ==> items[i] != items[j]
  }

  ghost function Members<T(!new)>(items: seq<T>): set<T> {
    set i | 0 <= i < |items| :: items[i]
  }

  lemma {:induction false} MembersOfDifferent<T(!new)>(items: seq<T>)
    ensures |Members(items)| <= |items|
    ensures AllDiffer(items) ==> |Members(items)| == |items|
  {
    if items != [] {
      var front, last := items[..|items| - 1], items[|items| - 1];
      MembersOfDifferent(front);
      assert Members(items) == Members(front) + {last} by {
        SplitLast(items);
      }
    }
  }

  lemma SubsetOfEqualSize<T(!new)>(a: set<T>, b: set<T>)
    requires a <= b && |a| >= |b|
    ensures a == b
  {
    assert |b - a| == |b| - |a|;
  }

  /** As many different items as there are holes fill every hole. */
  lemma Pigeonhole<T(!new)>(items: seq<T>, holes: seq<T>)
    requires AllDiffer(items) && |items| >= |holes|
    requires forall i :: 0 <= i < |items| ==> items[i] in Members(holes)
    ensures Members(items) == Members(holes)
  {
    MembersOfDifferent(items);
    MembersOfDifferent(holes);
    SubsetOfEqualSize(Members(items), Members(holes));
  }

  lemma {:induction false} TimesAtLeastOnce(whos: seq<Who>, w: Who)
    ensures Times(whos, w) >= 1 <==> w in Members(whos)
  {
    if whos != [] {
      TimesAtLeastOnce(whos[..|whos| - 1], w);
      SplitLast(whos);
    }
  }

  lemma {:induction false} TimesOfDifferent(whos: seq<Who>, w: Who)
    requires AllDiffer(whos)
    ensures Times(whos, w) == if w in Members(whos) then 1 else 0
  {
    if whos != [] {
      var n := |whos| - 1;
      TimesOfDifferent(whos[..n], w);
      SplitLast(whos);
    }
  }

  lemma {:induction false} OnceMeansDifferent(whos: seq<Who>, i: nat, j: nat)
    requires i < j < |whos| && whos[i] == whos[j]
    ensures Times(whos, whos[i]) >= 2
  {
    var n := |whos| - 1;
    if j < n {
      OnceMeansDifferent(whos[..n], i, j);
    } else {
      TimesAtLeastOnce(whos[..n], whos[i]);
      assert whos[..n][i] == whos[i];
    }
  }

  // ---- Progress and assertion -------------------------------------------------------

  lemma {:induction false} AVerdictCounts(verdicts: seq<Verdict>, v: Verdict)
    requires v in verdicts
    ensures VerdictsFor(verdicts, v.who) >= 1
  {
    var n := |verdicts| - 1;
    if verdicts[n] != v {
      SplitLast(verdicts);
      AVerdictCounts(verdicts[..n], v);
    }
  }

  lemma {:induction false} TwoVerdictsCount(verdicts: seq<Verdict>, v: Verdict, u: Verdict)
    requires v in verdicts && u in verdicts && v != u && v.who == u.who
    ensures VerdictsFor(verdicts, v.who) >= 2
  {
    var n := |verdicts| - 1;
    SplitLast(verdicts);
    if verdicts[n] == v {
      AVerdictCounts(verdicts[..n], u);
    } else if verdicts[n] == u {
      AVerdictCounts(verdicts[..n], v);
    } else {
      TwoVerdictsCount(verdicts[..n], v, u);
    }
  }

  lemma KeysTellSharesApart(shares: seq<Who>)
    requires KeysDiffer(shares)
    ensures AllDiffer(shares)
  {
  }

  lemma SharesFillThePlan(participants: seq<Participant>, shares: seq<Who>, p: Participant)
    requires |shares| == |participants| && AllDiffer(shares) && p in participants
    requires forall s :: s in shares ==> Times(Whos(participants), s) == 1
    ensures Times(shares, p.who) == 1
  {
    var whos := Whos(participants);
    forall i | 0 <= i < |shares| ensures shares[i] in Members(whos) {
      TimesAtLeastOnce(whos, shares[i]);
    }
    Pigeonhole(shares, whos);
    var i :| 0 <= i < |participants| && participants[i] == p;
    assert whos[i] == p.who;
    TimesOfDifferent(shares, p.who);
  }

  /** When the progress check gets as far as the assertion, the assertion holds: the shares
      are different, each belongs to a participant, and there are as many of both. */
  lemma AssertionNeverThrows(scope: Scope, participants: seq<Participant>, o: Admission)
    requires o.scope == scope && !Contradicts(participants, o) && !Missing(participants, o)
    ensures Asserts(scope, participants, o)
  {
    KeysTellSharesApart(o.shares);
    forall p | p in participants ensures Times(o.shares, p.who) == 1 {
      SharesFillThePlan(participants, o.shares, p);
    }
    forall p | p in participants ensures VerdictsFor(o.verdicts, p.who) == 1 {
      assert Admitted(p, o);
      var v :| v in o.verdicts && v.who == p.who && v.outcome == "eligible" && Planned(p, v.activityKey);
      AVerdictCounts(o.verdicts, v);
    }
  }

  lemma PlanFillsShares(participants: seq<Participant>, shares: seq<Who>, s: Who)
    requires ValidPlan(participants) && |shares| == |participants| && s in shares
    requires forall p :: p in participants ==> Times(shares, p.who) == 1
    ensures Times(Whos(participants), s) == 1
  {
    var whos := Whos(participants);
    forall i | 0 <= i < |whos| ensures whos[i] in Members(shares) {
      assert participants[i] in participants;
      TimesAtLeastOnce(shares, whos[i]);
    }
    Pigeonhole(whos, shares);
    var i :| 0 <= i < |shares| && shares[i] == s;
    TimesOfDifferent(whos, s);
  }

  lemma {:induction false} FindIsFromPlan(participants: seq<Participant>, w: Who)
    requires Find(participants, w).Some?
    ensures Find(participants, w).value in participants && Find(participants, w).value.who == w
  {
    if participants[0].who != w {
      FindIsFromPlan(participants[1..], w);
    }
  }

  lemma NoVerdictContradicts(scope: Scope, participants: seq<Participant>, o: Admission, v: Verdict)
    requires Asserts(scope, participants, o) && v in o.verdicts && v.outcome != "eligible"
    ensures !(Find(participants, v.who).Some? && Planned(Find(participants, v.who).value, v.activityKey))
  {
    if Find(participants, v.who).Some? {
      FindIsFromPlan(participants, v.who);
      var p := Find(participants, v.who).value;
      var u :| u in o.verdicts && u.who == p.who && u.outcome == "eligible" && Planned(p, u.activityKey);
      TwoVerdictsCount(o.verdicts, v, u);
    }
  }

  /** Progress is complete exactly when the assertion holds and no two shares have the same
      joined text. */
  lemma CompleteExactly(scope: Scope, participants: seq<Participant>, o: Admission)
    requires ValidPlan(participants)
    ensures AdmissionProgress(scope, participants, o) == Success(Complete)
       <==> Asserts(scope, participants, o) && KeysDiffer(o.shares)
  {
    if Asserts(scope, participants, o) && KeysDiffer(o.shares) {
      forall s | s in o.shares ensures Times(Whos(participants), s) == 1 {
        PlanFillsShares(participants, o.shares, s);
      }
      forall v | v in o.verdicts && v.outcome != "eligible"
        ensures !(Find(participants, v.who).Some? && Planned(Find(participants, v.who).value, v.activityKey))
      {
        NoVerdictContradicts(scope, participants, o, v);
      }
    }
  }

  // ---- Identifiers without the delimiter --------------------------------------------

  lemma JoinKeyTellsApart(v: Who, w: Who)
    requires ':' !in v.account && ':' !in w.account && JoinKey(v) == JoinKey(w)
    ensures v == w
  {
    FirstDelimiter(v);
    FirstDelimiter(w);
    var a := |v.account|;
    assert v.account == JoinKey(v)[..a] && w.account == JoinKey(w)[..a];
    assert v.persona == JoinKey(v)[a + 1..] && w.persona == JoinKey(w)[a + 1..];
  }

  lemma FirstDelimiter(w: Who)
    requires ':' !in w.account
    ensures |w.account| < |JoinKey(w)| && JoinKey(w)[|w.account|] == ':'
    ensures forall k :: 0 <= k < |w.account| ==> JoinKey(w)[k] != ':'
  {
  }

  lemma AssertedSharesDiffer(scope: Scope, participants: seq<Participant>, o: Admission)
    requires ValidPlan(participants) && Asserts(scope, participants, o)
    ensures AllDiffer(o.shares)
  {
    forall i, j | 0 <= i < j < |o.shares| ensures o.shares[i] != o.shares[j] {
      PlanFillsShares(participants, o.shares, o.shares[i]);
      TimesAtLeastOnce(Whos(participants), o.shares[i]);
      var k :| 0 <= k < |participants| && Whos(participants)[k] == o.shares[i];
      assert participants[k] in participants && Times(o.shares, o.shares[i]) == 1;
      if o.shares[i] == o.shares[j] {
        OnceMeansDifferent(o.shares, i, j);
      }
    }
  }

  /** For accounts without the delimiter, progress is complete exactly when the assertion
      holds. */
  lemma CompleteWithoutDelimiter(scope: Scope, participants: seq<Participant>, o: Admission)
    requires ValidPlan(participants)
    requires forall s :: s in o.shares ==> ':' !in s.account
    ensures AdmissionProgress(scope, participants, o) == Success(Complete) <==> Asserts(scope, participants, o)
  {
    CompleteExactly(scope, participants, o);
    if Asserts(scope, participants, o) {
      AssertedSharesDiffer(scope, participants, o);
      forall i, j | 0 <= i < j < |o.shares| ensures JoinKey(o.shares[i]) != JoinKey(o.shares[j]) {
        assert o.shares[i] in o.shares && o.shares[j] in o.shares;
        if JoinKey(o.shares[i]) == JoinKey(o.shares[j]) {
          JoinKeyTellsApart(o.shares[i], o.shares[j]);
        }
      }
    }
  }

  lemma {:induction false} EachOnce(v: Who, w: Who, x: Verdict, y: Verdict)
    requires v != w && x.who == v && y.who == w
    ensures Times([v, w], v) == 1 && Times([v, w], w) == 1
    ensures VerdictsFor([x, y], v) == 1 && VerdictsFor([x, y], w) == 1
  {
    assert [v, w][..1] == [v] && [x, y][..1] == [x];
    OneOnly(v, v, x);
    OneOnly(v, w, x);
  }

  lemma {:induction false} OneOnly(v: Who, w: Who, x: Verdict)
    ensures Times([v], w) == if v == w then 1 else 0
    ensures VerdictsFor([x], w) == if x.who == w then 1 else 0
  {
    assert [v][..0] == [] && [x][..0] == [];
  }

  const ONE := Participant("one", Who("a:b", "c"), "ONE", true, [Study, Karaoke], true, true)
  const TWO := Participant("two", Who("a", "b:c"), "TWO", false, [Study], true, false)

  lemma CollidingPlanParses(observeApp: bool)
    ensures PlanParses([ONE, TWO], observeApp)
  {
    var participants := [ONE, TWO];
    assert ONE.key[0] != TWO.key[0] && ONE.credential[0] != TWO.credential[0];
    assert |ONE.who.account| != |TWO.who.account| && |ONE.who.persona| != |TWO.who.persona|;
    assert ONE in participants && TWO in participants;
    assert Study in ONE.activities && Karaoke in ONE.activities;
    MaterialIsThere(observeApp);
  }

  lemma MaterialIsThere(observeApp: bool)
    ensures ParticipantParses(ONE) && ParticipantParses(TWO)
    ensures HasMaterial(ONE, observeApp) && HasMaterial(TWO, observeApp)
  {
  }

  lemma BothAreAdmitted(o: Admission)
    requires o.qualifications
          == [Qualification(ONE.who, "study"), Qualification(ONE.who, "karaoke"), Qualification(TWO.who, "study")]
    requires o.verdicts == [Verdict(ONE.who, "study", "eligible"), Verdict(TWO.who, "study", "eligible")]
    ensures Admitted(ONE, o) && Admitted(TWO, o)
  {
    assert Study in ONE.activities && Study in TWO.activities;
    assert o.verdicts[0] in o.verdicts && o.verdicts[1] in o.verdicts;
  }

  /** With the delimiter in an account the two differ: a plan that the parser accepts in
      either mode has two participants whose joined texts are the same, who are admitted by
      the assertion and refused by the progress check. */
  lemma DelimiterCollision() returns (scope: Scope, participants: seq<Participant>, o: Admission)
    ensures PlanParses(participants, true) && PlanParses(participants, false)
    ensures Asserts(scope, participants, o) && AdmissionProgress(scope, participants, o).Failure?
  {
    hide Times, VerdictsFor, PlanParses, Admitted;
    var v, w := ONE.who, TWO.who;
    var x, y := Verdict(v, "study", "eligible"), Verdict(w, "study", "eligible");
    scope := Scope("community", "post", 1);
    participants := [ONE, TWO];
    o := Admission(scope, [v, w],
      [Qualification(v, "study"), Qualification(v, "karaoke"), Qualification(w, "study")], [x, y]);
    CollidingPlanParses(true);
    CollidingPlanParses(false);
    BothAreAdmitted(o);
    assert |v.account| != |w.account|;
    EachOnce(v, w, x, y);
    assert JoinKey(o.shares[0]) == JoinKey(o.shares[1]);
  }
}
