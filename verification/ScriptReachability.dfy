/** scripts/check-scripts-typecheck-coverage.ts: which package scripts are
    executed by `bun run check`, and which typecheck programs that leaves
    unwired. */
module ScriptReachability {
  import opened Outcomes

  // ---------------------------------------------------------------- commands

  /** Any of # ; | ` newline < > ( ) $ \ and the two quotes. */
  predicate Unsupported(c: char) {
    c == '#' || c == ';' || c == '|' || c == '`' || c == '\n' || c == '<' || c == '>' || c == '(' || c == ')'
    || c == '$' || c == '\\' || c == '\'' || c == '"'
  }

  /** The white space of ECMAScript's \s and trim(). */
  predicate Space(c: char) {
    var u := c as int;
    9 <= u <= 13 || u == 32 || u == 0xA0 || u == 0x1680 || 0x2000 <= u <= 0x200A
    || u == 0x2028 || u == 0x2029 || u == 0x202F || u == 0x205F || u == 0x3000 || u == 0xFEFF
  }

  predicate Blank(s: string) {
    forall i | 0 <= i < |s| :: Space(s[i])
  }

  predicate Solid(s: string) {
    s != [] && forall i | 0 <= i < |s| :: !Space(s[i])
  }

  /** `command.split("&&")`. */
  function SplitAnd(s: string): (r: seq<string>)
    ensures r != []
  {
    if s == [] then [""]
    else if "&&" <= s then [""] + SplitAnd(s[2..])
    else
      var rest := SplitAnd(s[1..]);
      [[s[0]] + rest[0]] + rest[1..]
  }

  predicate Plain(command: string) {
    command == [] || (!Unsupported(command[0]) && Plain(command[1..]))
  }

  function Segments(command: string): Option<seq<string>> {
    if Plain(command) then Some(SplitAnd(command)) else None
  }

  function JoinAnd(parts: seq<string>): string
    requires parts != []
  {
    if |parts| == 1 then parts[0] else parts[0] + "&&" + JoinAnd(parts[1..])
  }

  predicate HoldsSeparator(s: string) {
    exists i | 0 <= i < |s| - 1 :: s[i] == '&' && s[i + 1] == '&'
  }

  /** Splitting loses nothing. */
  lemma {:induction false} SplitAndJoins(s: string)
    ensures JoinAnd(SplitAnd(s)) == s
  {
    if s == [] {
    } else if "&&" <= s {
      SplitAndJoins(s[2..]);
      assert SplitAnd(s)[1..] == SplitAnd(s[2..]);
      assert s == "" + "&&" + s[2..];
    } else {
      SplitAndJoins(s[1..]);
      JoinAndPrepends(s[0], SplitAnd(s[1..]));
    }
  }

  lemma JoinAndPrepends(c: char, parts: seq<string>)
    requires parts != []
    ensures JoinAnd([[c] + parts[0]] + parts[1..]) == [c] + JoinAnd(parts)
  {
    var all := [[c] + parts[0]] + parts[1..];
    assert all[1..] == parts[1..];
    if |parts| > 1 {
      assert [c] + (parts[0] + "&&" + JoinAnd(parts[1..])) == ([c] + parts[0]) + "&&" + JoinAnd(parts[1..]);
    }
  }

  /** No segment still holds a separator. */
  lemma {:induction false} SplitAndSeparates(s: string)
    ensures forall k | 0 <= k < |SplitAnd(s)| :: !HoldsSeparator(SplitAnd(s)[k])
    ensures SplitAnd(s)[0] <= s
  {
    if s == [] {
    } else if "&&" <= s {
      SplitAndSeparates(s[2..]);
    } else {
      SplitAndSeparates(s[1..]);
      var first := SplitAnd(s[1..])[0];
      var head := [s[0]] + first;
      assert head <= s;
      forall i | 0 <= i < |head| - 1 ensures !(head[i] == '&' && head[i + 1] == '&') {
        assert s[i] == head[i] && s[i + 1] == head[i + 1];
        if i > 0 { assert first[i - 1] == head[i] && first[i] == head[i + 1]; }
      }
      assert forall k | 1 <= k < |SplitAnd(s)| :: SplitAnd(s)[k] == SplitAnd(s[1..])[k];
    }
  }

  function WordLength(s: string): (n: nat)
    ensures n <= |s|
    ensures forall i | 0 <= i < n :: !Space(s[i])
    ensures n < |s| ==> Space(s[n])
  {
    if s == [] || Space(s[0]) then 0 else 1 + WordLength(s[1..])
  }

  /** `segment.trim().split(/\s+/)`: the maximal runs of characters that are not
      white space. A blank segment, which splits into one empty token, has no
      words here; no matcher below accepts fewer than three. */
  function Words(s: string): seq<string>
    decreases |s|
  {
    if s == [] then []
    else if Space(s[0]) then Words(s[1..])
    else [s[..WordLength(s)]] + Words(s[WordLength(s)..])
  }

  function RunTarget(segment: string): Option<string> {
    var tokens := Words(segment);
    if |tokens| == 3 && tokens[0] == "bun" && tokens[1] == "run" then Some(tokens[2]) else None
  }

  predicate SegmentTypechecks(segment: string, config: string) {
    var tokens := Words(segment);
    && |tokens| == 4
    && (tokens[0] == "tsc" || tokens[0] == "tsrs")
    && tokens[1] == "--noEmit"
    && (tokens[2] == "-p" || tokens[2] == "--project")
    && tokens[3] == config
  }

  predicate AnyTypechecks(segments: seq<string>, config: string) {
    segments != [] && (SegmentTypechecks(segments[0], config) || AnyTypechecks(segments[1..], config))
  }

  predicate CommandTypechecks(command: string, config: string) {
    var segments := Segments(command);
    segments.Some? && AnyTypechecks(segments.value, config)
  }

  /** Words laid out with white space around them; only the outer gaps may be empty. */
  function Layout(gaps: seq<string>, words: seq<string>): string
    requires |gaps| == |words| + 1
  {
    if words == [] then gaps[0] else gaps[0] + words[0] + Layout(gaps[1..], words[1..])
  }

  predicate ProperLayout(gaps: seq<string>, words: seq<string>) {
    && |gaps| == |words| + 1
    && (forall i | 0 <= i < |gaps| :: Blank(gaps[i]))
    && (forall i | 0 < i < |words| :: gaps[i] != [])
    && (forall i | 0 <= i < |words| :: Solid(words[i]))
  }

  lemma {:induction false} WordsSkipBlank(gap: string, s: string)
    requires Blank(gap)
    ensures Words(gap + s) == Words(s)
  {
    if gap == [] {
      assert gap + s == s;
    } else {
      assert (gap + s)[0] == gap[0] && (gap + s)[1..] == gap[1..] + s;
      WordsSkipBlank(gap[1..], s);
    }
  }

  lemma {:induction false} WordLengthOfSolid(w: string, s: string)
    requires forall i | 0 <= i < |w| :: !Space(w[i])
    requires s == [] || Space(s[0])
    ensures WordLength(w + s) == |w|
  {
    if w == [] {
      assert w + s == s;
    } else {
      assert (w + s)[1..] == w[1..] + s;
      WordLengthOfSolid(w[1..], s);
    }
  }

  /** Tokenizing reads back exactly the words that were laid out. */
  lemma {:induction false} WordsOfLayout(gaps: seq<string>, words: seq<string>)
    requires ProperLayout(gaps, words)
    ensures Words(Layout(gaps, words)) == words
    decreases |words|
  {
    if words == [] {
      WordsSkipBlank(gaps[0], "");
      assert gaps[0] + "" == gaps[0];
    } else {
      var rest := Layout(gaps[1..], words[1..]);
      WordsOfLayout(gaps[1..], words[1..]);
      assert Layout(gaps, words) == gaps[0] + (words[0] + rest);
      WordsSkipBlank(gaps[0], words[0] + rest);
      assert rest == [] || Space(rest[0]) by {
        if rest != [] && |words| > 1 {
          assert gaps[1..][0] == gaps[1] && gaps[1] != [];
          assert rest[0] == gaps[1][0];
        }
      }
      WordLengthOfSolid(words[0], rest);
      var all := words[0] + rest;
      assert !Space(all[0]);
      assert all[..|words[0]|] == words[0] && all[|words[0]|..] == rest;
      assert words == [words[0]] + words[1..];
    }
  }

  lemma LayoutPrepends(c: char, gaps: seq<string>, words: seq<string>)
    requires ProperLayout(gaps, words) && Space(c)
    ensures ProperLayout([[c] + gaps[0]] + gaps[1..], words)
    ensures Layout([[c] + gaps[0]] + gaps[1..], words) == [c] + Layout(gaps, words)
  {
    var more := [[c] + gaps[0]] + gaps[1..];
    assert more[1..] == gaps[1..];
  }

  lemma LayoutAddsWord(word: string, gaps: seq<string>, words: seq<string>)
    requires ProperLayout(gaps, words) && Solid(word)
    requires words != [] ==> gaps[0] != []
    ensures ProperLayout([""] + gaps, [word] + words)
    ensures Layout([""] + gaps, [word] + words) == word + Layout(gaps, words)
  {
    var (more, all) := ([""] + gaps, [word] + words);
    assert more[1..] == gaps && all[1..] == words;
    assert more[0] == "" && all[0] == word;
    assert Layout(more, all) == "" + word + Layout(gaps, words);
  }

  /** Every string is a layout of its own words, with some gaps. */
  lemma {:induction false} LayoutOfWords(s: string) returns (gaps: seq<string>)
    ensures ProperLayout(gaps, Words(s)) && Layout(gaps, Words(s)) == s
    ensures gaps[0] != [] <==> s != [] && Space(s[0])
    decreases |s|
  {
    if s == [] {
      gaps := [""];
    } else if Space(s[0]) {
      var more := LayoutOfWords(s[1..]);
      LayoutPrepends(s[0], more, Words(s[1..]));
      gaps := [[s[0]] + more[0]] + more[1..];
      assert s == [s[0]] + s[1..];
    } else {
      var n := WordLength(s);
      var more := LayoutOfWords(s[n..]);
      WordsBeginSolid(s[n..]);
      LayoutAddsWord(s[..n], more, Words(s[n..]));
      gaps := [""] + more;
      assert s == s[..n] + s[n..];
    }
  }

  lemma WordsBeginSolid(s: string)
    ensures Words(s) != [] ==> s != []
  {
  }

  /** A segment is an edge to `target` exactly when it reads `bun run target`
      up to white space: nothing before, between or after the three words. */
  lemma RunTargetExactly(segment: string, target: string)
    ensures RunTarget(segment) == Some(target) <==>
            exists gaps :: ProperLayout(gaps, ["bun", "run", target]) && segment == Layout(gaps, ["bun", "run", target])
  {
    if RunTarget(segment) == Some(target) {
      var gaps := LayoutOfWords(segment);
      assert Words(segment) == ["bun", "run", target];
    }
    forall gaps | ProperLayout(gaps, ["bun", "run", target]) && segment == Layout(gaps, ["bun", "run", target])
      ensures RunTarget(segment) == Some(target)
    {
      WordsOfLayout(gaps, ["bun", "run", target]);
    }
  }

  // ------------------------------------------------------------ reachability

  ghost predicate Edge(scripts: map<string, string>, source: string, target: string) {
    && source in scripts
    && var segments := Segments(scripts[source]);
       segments.Some? && exists segment | segment in segments.value :: RunTarget(segment) == Some(target)
  }

  /** A chain of defined scripts, each executed by the one before it. */
  ghost predicate Chain(scripts: map<string, string>, roots: seq<string>, path: seq<string>) {
    && path != []
    && path[0] in roots
    && (forall i | 0 <= i < |path| :: path[i] in scripts)
    && (forall i, j | 0 <= i < j < |path| && j == i + 1 :: Edge(scripts, path[i], path[j]))
  }

  ghost predicate Reaches(scripts: map<string, string>, roots: seq<string>, name: string) {
    exists path :: Chain(scripts, roots, path) && path[|path| - 1] == name
  }

  lemma ReachesStep(scripts: map<string, string>, roots: seq<string>, source: string, target: string)
    requires Reaches(scripts, roots, source) && Edge(scripts, source, target) && target in scripts
    ensures Reaches(scripts, roots, target)
  {
    var path :| Chain(scripts, roots, path) && path[|path| - 1] == source;
    assert Chain(scripts, roots, path + [target]);
  }

  /** A set closed under edges that holds the defined roots holds every chain. */
  lemma {:induction false} ClosedHoldsChain(scripts: map<string, string>, roots: seq<string>, path: seq<string>,
                                            closed: set<string>)
    requires Chain(scripts, roots, path)
    requires forall r | r in roots && r in scripts :: r in closed
    requires forall a, b | a in closed && Edge(scripts, a, b) && b in scripts :: b in closed
    ensures path[|path| - 1] in closed
  {
    if |path| > 1 {
      var shorter := path[..|path| - 1];
      assert Chain(scripts, roots, shorter);
      ClosedHoldsChain(scripts, roots, shorter, closed);
      assert Edge(scripts, path[|path| - 2], path[|path| - 1]);
    }
  }

  /** What is still on the stack, or already reached, covers every edge out of the reached set. */
  ghost predicate Covered(scripts: map<string, string>, reached: set<string>, pending: seq<string>) {
    forall a, b | a in reached && Edge(scripts, a, b) && b in scripts :: b in reached || b in pending
  }

  ghost predicate Justified(scripts: map<string, string>, roots: seq<string>, pending: seq<string>) {
    forall p | p in pending && p in scripts :: Reaches(scripts, roots, p)
  }

  /** Pushes the targets of a command that are not yet reached. */
  method PushTargets(segments: seq<string>, reached: set<string>, stack: seq<string>) returns (pending: seq<string>)
    ensures stack <= pending
    ensures forall p | p in pending :: p in stack || exists k | 0 <= k < |segments| :: RunTarget(segments[k]) == Some(p)
    ensures forall k | 0 <= k < |segments| && RunTarget(segments[k]).Some? ::
        RunTarget(segments[k]).value in reached || RunTarget(segments[k]).value in pending
  {
    pending := stack;
    for k := 0 to |segments|
      invariant stack <= pending
      invariant forall p | p in pending :: p in stack || exists j | 0 <= j < k :: RunTarget(segments[j]) == Some(p)
      invariant forall j | 0 <= j < k && RunTarget(segments[j]).Some? ::
          RunTarget(segments[j]).value in reached || RunTarget(segments[j]).value in pending
    {
      var target := RunTarget(segments[k]);
      if target.Some? && target.value !in reached {
        pending := pending + [target.value];
      }
    }
  }

  method PushScript(scripts: map<string, string>, name: string, reached: set<string>, stack: seq<string>)
    returns (pending: seq<string>)
    requires name in scripts
    ensures stack <= pending
    ensures forall p | p in pending :: p in stack || Edge(scripts, name, p)
    ensures forall b | Edge(scripts, name, b) :: b in reached || b in pending
  {
    pending := stack;
    var segments := Segments(scripts[name]);
    if segments.Some? {
      pending := PushTargets(segments.value, reached, stack);
    }
  }

  /** The worklist invariant: everything reached or pending is reachable, and the
      roots and the edges out of the reached set are reached or pending. */
  ghost predicate Progress(scripts: map<string, string>, roots: seq<string>, reached: set<string>,
                           pending: seq<string>)
  {
    && reached <= scripts.Keys
    && (forall name | name in reached :: Reaches(scripts, roots, name))
    && Justified(scripts, roots, pending)
    && Covered(scripts, reached, pending)
    && (forall r | r in roots && r in scripts :: r in reached || r in pending)
  }

  lemma ProgressStarts(scripts: map<string, string>, roots: seq<string>)
    ensures Progress(scripts, roots, {}, roots)
  {
    forall p | p in roots && p in scripts ensures Reaches(scripts, roots, p) {
      assert Chain(scripts, roots, [p]);
    }
  }

  lemma ProgressSkips(scripts: map<string, string>, roots: seq<string>, reached: set<string>, stack: seq<string>,
                      name: string)
    requires Progress(scripts, roots, reached, stack + [name])
    requires name in reached || name !in scripts
    ensures Progress(scripts, roots, reached, stack)
  {
    assert forall p | p in stack :: p in stack + [name];
  }

  lemma ProgressVisits(scripts: map<string, string>, roots: seq<string>, reached: set<string>, stack: seq<string>,
                       name: string, pending: seq<string>)
    requires Progress(scripts, roots, reached, stack + [name]) && name in scripts
    requires stack <= pending
    requires forall p | p in pending :: p in stack || Edge(scripts, name, p)
    requires forall b | Edge(scripts, name, b) :: b in reached || b == name || b in pending
    ensures Progress(scripts, roots, reached + {name}, pending)
  {
    assert forall p | p in stack + [name] :: p == name || p in pending;
    assert name in stack + [name];
    forall p | p in pending && p in scripts ensures Reaches(scripts, roots, p) {
      if p in stack {
        assert p in stack + [name];
      } else {
        ReachesStep(scripts, roots, name, p);
      }
    }
  }

  lemma ProgressCompletes(scripts: map<string, string>, roots: seq<string>, reached: set<string>)
    requires Progress(scripts, roots, reached, [])
    ensures forall name :: name in reached <==> Reaches(scripts, roots, name)
  {
    forall name | Reaches(scripts, roots, name) ensures name in reached {
      var path :| Chain(scripts, roots, path) && path[|path| - 1] == name;
      ClosedHoldsChain(scripts, roots, path, reached);
    }
  }

  method ReachableScripts(scripts: map<string, string>, roots: seq<string>) returns (reached: set<string>)
    ensures forall name :: name in reached <==> Reaches(scripts, roots, name)
  {
    reached := {};
    var pending := roots;
    ProgressStarts(scripts, roots);
    while pending != []
      invariant Progress(scripts, roots, reached, pending)
      decreases scripts.Keys - reached, |pending|
    {
      var name, stack := pending[|pending| - 1], pending[..|pending| - 1];
      assert pending == stack + [name];
      if name in reached || name !in scripts {
        ProgressSkips(scripts, roots, reached, stack, name);
        pending := stack;
      } else {
        pending := PushScript(scripts, name, reached + {name}, stack);
        ProgressVisits(scripts, roots, reached, stack, name, pending);
        reached := reached + {name};
      }
    }
    ProgressCompletes(scripts, roots, reached);
  }

  // ---------------------------------------------------------------- programs

  datatype Program = Program(config: string, scriptNames: seq<string>)

  ghost predicate Credits(name: string, config: string, scripts: map<string, string>) {
    Reaches(scripts, ["check"], name) && name in scripts && CommandTypechecks(scripts[name], config)
  }

  ghost predicate Wired(names: seq<string>, config: string, scripts: map<string, string>) {
    names != [] && (Credits(names[0], config, scripts) || Wired(names[1..], config, scripts))
  }

  /** The configurations, in program order, that no reached script typechecks. */
  ghost function Unwired(programs: seq<Program>, scripts: map<string, string>): seq<string> {
    if programs == [] then []
    else
      var before := Unwired(programs[..|programs| - 1], scripts);
      var last := programs[|programs| - 1];
      if Wired(last.scriptNames, last.config, scripts) then before else before + [last.config]
  }

  method IsCredited(name: string, config: string, scripts: map<string, string>, reached: set<string>)
    returns (credited: bool)
    requires name in reached <==> Reaches(scripts, ["check"], name)
    ensures credited <==> Credits(name, config, scripts)
  {
    credited := false;
    if name in reached && name in scripts {
      credited := CommandTypechecks(scripts[name], config);
    }
  }

  method IsWired(names: seq<string>, config: string, scripts: map<string, string>, reached: set<string>)
    returns (wired: bool)
    requires forall name | name in names :: name in reached <==> Reaches(scripts, ["check"], name)
    ensures wired <==> Wired(names, config, scripts)
  {
    if names == [] {
      return false;
    }
    assert names[0] in names;
    wired := IsCredited(names[0], config, scripts, reached);
    if !wired {
      wired := IsWired(names[1..], config, scripts, reached);
    }
  }

  method UnwiredPrograms(programs: seq<Program>, scripts: map<string, string>) returns (unwired: seq<string>)
    ensures unwired == Unwired(programs, scripts)
  {
    var reached := ReachableScripts(scripts, ["check"]);
    unwired := [];
    for i := 0 to |programs|
      invariant unwired == Unwired(programs[..i], scripts)
    {
      assert programs[..i + 1][..i] == programs[..i];
      var wired := IsWired(programs[i].scriptNames, programs[i].config, scripts, reached);
      if !wired {
        unwired := unwired + [programs[i].config];
      }
    }
    assert programs[..|programs|] == programs;
  }

  lemma {:induction false} WiredByOne(names: seq<string>, config: string, scripts: map<string, string>)
    ensures Wired(names, config, scripts) <==> exists name | name in names :: Credits(name, config, scripts)
  {
    if names != [] {
      WiredByOne(names[1..], config, scripts);
      assert forall name :: name in names <==> name == names[0] || name in names[1..];
    }
  }

  /** A program is omitted from the report exactly when one of its listed scripts
      is reached from `check` and holds a valid typecheck segment for it. */
  lemma OmittedExactlyWhenWired(programs: seq<Program>, scripts: map<string, string>, i: nat)
    requires i < |programs|
    requires forall a, b | 0 <= a < b < |programs| :: programs[a].config != programs[b].config
    ensures programs[i].config !in Unwired(programs, scripts) <==>
            exists name | name in programs[i].scriptNames :: Credits(name, programs[i].config, scripts)
  {
    UnwiredExactly(programs, scripts, i);
    WiredByOne(programs[i].scriptNames, programs[i].config, scripts);
  }

  lemma {:induction false} UnwiredExactly(programs: seq<Program>, scripts: map<string, string>, i: nat)
    requires i < |programs|
    requires forall a, b | 0 <= a < b < |programs| :: programs[a].config != programs[b].config
    ensures programs[i].config in Unwired(programs, scripts) <==>
            !Wired(programs[i].scriptNames, programs[i].config, scripts)
  {
    var before := programs[..|programs| - 1];
    UnwiredFromPrograms(before, scripts);
    if i < |programs| - 1 {
      UnwiredExactly(before, scripts, i);
    }
  }

  lemma {:induction false} UnwiredFromPrograms(programs: seq<Program>, scripts: map<string, string>)
    ensures forall c | c in Unwired(programs, scripts) :: exists j | 0 <= j < |programs| :: programs[j].config == c
  {
    if programs != [] {
      UnwiredFromPrograms(programs[..|programs| - 1], scripts);
    }
  }
}
