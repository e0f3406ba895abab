/** Path patterns of permission rules: `**` over segments, `*` inside one, a leading `!`
    for exclusion. */
module PathPattern {
  import opened Options
  import opened PathSpelling

  // ----- what a pattern denotes -----

  /** The items can be cut into one block for each element of the pattern, each covered by
      its element. */
  ghost predicate Denotes<P, T(!new)>(covers: (P, seq<T>) -> bool, pattern: seq<P>, items: seq<T>) {
    exists blocks: seq<seq<T>> :: CutBy(covers, pattern, blocks) && Concat(blocks) == items
  }

  ghost predicate CutBy<P, T>(covers: (P, seq<T>) -> bool, pattern: seq<P>, blocks: seq<seq<T>>) {
    |blocks| == |pattern| && forall i :: 0 <= i < |pattern| ==> covers(pattern[i], blocks[i])
  }

  function Concat<T>(blocks: seq<seq<T>>): seq<T> {
    if blocks == [] then [] else blocks[0] + Concat(blocks[1..])
  }

  lemma DenotesStep<P, T(!new)>(covers: (P, seq<T>) -> bool, pattern: seq<P>, items: seq<T>)
    requires pattern != []
    ensures Denotes(covers, pattern, items)
            <==> exists k ::
                   0 <= k <= |items| && covers(pattern[0], items[..k]) && Denotes(covers, pattern[1..], items[k..])
  {
    if Denotes(covers, pattern, items) {
      var blocks :| CutBy(covers, pattern, blocks) && Concat(blocks) == items;
      var k := |blocks[0]|;
      assert items[..k] == blocks[0] && items[k..] == Concat(blocks[1..]);
      assert CutBy(covers, pattern[1..], blocks[1..]);
      assert covers(pattern[0], items[..k]) && Denotes(covers, pattern[1..], items[k..]);
    }
    if k :| 0 <= k <= |items| && covers(pattern[0], items[..k]) && Denotes(covers, pattern[1..], items[k..]) {
      var rest :| CutBy(covers, pattern[1..], rest) && Concat(rest) == items[k..];
      var blocks := [items[..k]] + rest;
      assert blocks[1..] == rest;
      assert CutBy(covers, pattern, blocks) && Concat(blocks) == items;
    }
  }

  lemma DenotesNothing<P, T(!new)>(covers: (P, seq<T>) -> bool, items: seq<T>)
    ensures Denotes(covers, [], items) <==> items == []
  {
    if items == [] { assert CutBy(covers, [], []) && Concat<T>([]) == items; }
  }

  // ----- one segment -----

  /** An atom of the regular expression a segment is turned into, with the number of `?`
      after it. */
  datatype Atom = Literal(c: char, marks: nat) | Run(marks: nat)

  /** None where the expression is malformed: a `?` with nothing to apply to. */
  function Compile(segment: string): Option<seq<Atom>> {
    if segment == "" then Some([])
    else
      var k := |segment| - 1;
      match Compile(segment[..k])
      case None => None
      case Some(atoms) =>
        if segment[k] == '*' then Some(atoms + [Run(0)])
        else if segment[k] == '?' then Questioned(atoms)
        else Some(atoms + [Literal(segment[k], 0)])
  }

  /** A first `?` makes a literal optional, another one makes an atom lazy. */
  function Questioned(atoms: seq<Atom>): Option<seq<Atom>> {
    if atoms == [] then None
    else
      var before, last := atoms[..|atoms| - 1], atoms[|atoms| - 1];
      match last
      case Literal(c, marks) => if marks < 2 then Some(before + [Literal(c, marks + 1)]) else None
      case Run(marks) => if marks < 1 then Some(before + [Run(marks + 1)]) else None
  }

  predicate Fits(atoms: seq<Atom>, s: string)
    decreases |atoms|, |s|
  {
    if atoms == [] then s == ""
    else match atoms[0]
      case Literal(c, marks) => (marks > 0 && Fits(atoms[1..], s)) || (s != "" && s[0] == c && Fits(atoms[1..], s[1..]))
      case Run(_) => Fits(atoms[1..], s) || (s != "" && s[0] != '/' && Fits(atoms, s[1..]))
  }

  /** None: the original throws. */
  function MatchSingle(pattern: string, segment: string): Option<bool> {
    if pattern == "*" then Some(NoSlash(segment))
    else match Compile(pattern)
      case None => None
      case Some(atoms) => Some(Fits(atoms, segment))
  }

  /** A `*` stands for any run without a slash, another character for itself. */
  predicate CharCovers(c: char, run: string) {
    if c == '*' then NoSlash(run) else run == [c]
  }

  lemma {:induction false} CompileWithoutMarks(segment: string)
    requires '?' !in segment
    ensures Compile(segment).Some? && |Compile(segment).value| == |segment|
    ensures forall i :: 0 <= i < |segment| ==>
              Compile(segment).value[i] == if segment[i] == '*' then Run(0) else Literal(segment[i], 0)
  {
    if segment != "" {
      assert '?' !in segment[..|segment| - 1];
      CompileWithoutMarks(segment[..|segment| - 1]);
    }
  }

  predicate AtomsOf(atoms: seq<Atom>, segment: string) {
    && |atoms| == |segment|
    && forall i :: 0 <= i < |segment| ==> atoms[i] == if segment[i] == '*' then Run(0) else Literal(segment[i], 0)
  }

  lemma {:induction false} FitsIsDenoted(atoms: seq<Atom>, segment: string, s: string)
    requires AtomsOf(atoms, segment)
    ensures Fits(atoms, s) <==> Denotes(CharCovers, segment, s)
    decreases |segment|, |s|
  {
    if segment == "" {
      DenotesNothing(CharCovers, s);
    } else {
      DenotesStep(CharCovers, segment, s);
      assert AtomsOf(atoms[1..], segment[1..]);
      if segment[0] == '*' {
        FitsRun(atoms, segment, s);
      } else {
        if s != "" { FitsIsDenoted(atoms[1..], segment[1..], s[1..]); }
        assert forall k :: 0 <= k <= |s| && s[..k] == [segment[0]] ==> k == 1;
        assert s != "" && s[0] == segment[0] ==> s[..1] == [segment[0]];
      }
    }
  }

  lemma {:induction false} FitsRun(atoms: seq<Atom>, segment: string, s: string)
    requires AtomsOf(atoms, segment) && segment != "" && segment[0] == '*'
    ensures Fits(atoms, s)
            <==> exists k :: 0 <= k <= |s| && CharCovers('*', s[..k]) && Denotes(CharCovers, segment[1..], s[k..])
    decreases |segment|, |s|, 0
  {
    assert AtomsOf(atoms[1..], segment[1..]);
    FitsIsDenoted(atoms[1..], segment[1..], s);
    assert s[..0] == "" && s[0..] == s;
    if s != "" {
      FitsRun(atoms, segment, s[1..]);
      forall k | 0 < k <= |s|
        ensures s[1..][..k - 1] == s[..k][1..] && s[1..][k - 1..] == s[k..] && s[..k] == [s[0]] + s[1..][..k - 1]
      {
      }
      forall k | 0 <= k <= |s| - 1
        ensures s[1..][..k] == s[..k + 1][1..] && s[1..][k..] == s[k + 1..] && s[..k + 1] == [s[0]] + s[1..][..k]
      {
      }
    }
  }

  /** Without `?`, one segment of a pattern matches just the segments it denotes. */
  lemma MatchSingleIsDenoted(pattern: string, segment: string)
    requires '?' !in pattern
    ensures MatchSingle(pattern, segment) == Some(Denotes(CharCovers, pattern, segment))
  {
    CompileWithoutMarks(pattern);
    FitsIsDenoted(Compile(pattern).value, pattern, segment);
    if pattern == "*" {
      DenotesStep(CharCovers, pattern, segment);
      forall k | 0 <= k <= |segment| ensures Denotes(CharCovers, pattern[1..], segment[k..]) <==> k == |segment| {
        DenotesNothing(CharCovers, segment[k..]);
      }
      assert segment[..|segment|] == segment;
    }
  }

  // ----- whole paths -----

  /** The matcher over segments, in the order it tries things. */
  function Glob(pattern: seq<string>, path: seq<string>): Option<bool>
    decreases |pattern|, |path|, 0
  {
    if pattern == [] then Some(path == [])
    else if pattern[0] == "**" then if |pattern| == 1 then Some(true) else GlobFrom(pattern[1..], path)
    else if path == [] then Some(false)
    else match MatchSingle(pattern[0], path[0])
      case Some(true) => Glob(pattern[1..], path[1..])
      case other => other
  }

  /** Tries every remaining position, the end included. */
  function GlobFrom(pattern: seq<string>, path: seq<string>): Option<bool>
    decreases |pattern|, |path|, 1
  {
    var here := Glob(pattern, path);
    if here == Some(false) && path != [] then GlobFrom(pattern, path[1..]) else here
  }

  method MatchSegments(pattern: seq<string>, path: seq<string>, start: nat, at: nat) returns (r: Option<bool>)
    requires start <= |pattern| && at <= |path|
    ensures r == Glob(pattern[start..], path[at..])
    decreases |pattern| - start, 0
  {
    var pi, pp := start, at;
    while pi < |pattern|
      invariant start <= pi <= |pattern| && at <= pp <= |path|
      invariant Glob(pattern[start..], path[at..]) == Glob(pattern[pi..], path[pp..])
    {
      var p := pattern[pi];
      assert pattern[pi..][1..] == pattern[pi + 1..];
      if p == "**" {
        if pi == |pattern| - 1 { return Some(true); }
        r := MatchFrom(pattern, path, pi + 1, pp);
        return;
      }
      if pp >= |path| { return Some(false); }
      assert path[pp..][1..] == path[pp + 1..];
      var single := MatchSingle(p, path[pp]);
      if single != Some(true) { return single; }
      pi, pp := pi + 1, pp + 1;
    }
    return Some(pp >= |path|);
  }

  method MatchFrom(pattern: seq<string>, path: seq<string>, start: nat, at: nat) returns (r: Option<bool>)
    requires 0 < start <= |pattern| && at <= |path|
    ensures r == GlobFrom(pattern[start..], path[at..])
    decreases |pattern| - start, 1
  {
    var pp := at;
    while pp < |path|
      invariant at <= pp <= |path|
      invariant GlobFrom(pattern[start..], path[at..]) == GlobFrom(pattern[start..], path[pp..])
    {
      r := MatchSegments(pattern, path, start, pp);
      if r != Some(false) { return; }
      assert path[pp..][1..] == path[pp + 1..];
      pp := pp + 1;
    }
    r := MatchSegments(pattern, path, start, pp);
  }

  /** `**` stands for any number of segments, another segment for one it denotes. */
  ghost predicate SegmentCovers(p: string, block: seq<string>) {
    p == "**" || (|block| == 1 && Denotes(CharCovers, p, block[0]))
  }

  predicate NoMark(s: string) { '?' !in s }

  lemma {:induction false} GlobIsDenoted(pattern: seq<string>, path: seq<string>)
    requires Each(pattern, NoMark)
    ensures Glob(pattern, path) == Some(Denotes(SegmentCovers, pattern, path))
    decreases |pattern|, |path|, 0
  {
    if pattern == [] {
      DenotesNothing(SegmentCovers, path);
    } else {
      DenotesStep(SegmentCovers, pattern, path);
      assert NoMark(pattern[0]);
      if pattern[0] == "**" {
        if |pattern| == 1 {
          DenotesNothing(SegmentCovers, path[|path|..]);
        } else {
          GlobFromIsDenoted(pattern[1..], path);
        }
      } else if path != [] {
        MatchSingleIsDenoted(pattern[0], path[0]);
        GlobIsDenoted(pattern[1..], path[1..]);
        assert path[..1] == [path[0]];
        assert forall k :: 0 <= k <= |path| && SegmentCovers(pattern[0], path[..k]) ==> k == 1;
      }
    }
  }

  lemma {:induction false} GlobFromIsDenoted(pattern: seq<string>, path: seq<string>)
    requires Each(pattern, NoMark)
    ensures GlobFrom(pattern, path) == Some(exists k :: 0 <= k <= |path| && Denotes(SegmentCovers, pattern, path[k..]))
    decreases |pattern|, |path|, 1
  {
    GlobIsDenoted(pattern, path);
    assert path[0..] == path;
    if path != [] {
      GlobFromIsDenoted(pattern, path[1..]);
      assert forall k :: 0 < k <= |path| ==> path[1..][k - 1..] == path[k..];
      assert forall k :: 0 <= k <= |path| - 1 ==> path[1..][k..] == path[k + 1..];
    }
  }

  // ----- the whole pattern -----

  predicate Excludes(pattern: string) { pattern != "" && pattern[0] == '!' }

  function Not(answer: Option<bool>): Option<bool> {
    match answer
    case None => None
    case Some(b) => Some(!b)
  }

  function MatchPathPattern(pattern: string, file: string): Option<bool>
    decreases |pattern|
  {
    if Excludes(pattern) then Not(MatchPathPattern(pattern[1..], file))
    else
      var normal := Normalize(pattern);
      NormalizeLength(pattern);
      if Excludes(normal[1..]) then Not(MatchPathPattern(normal[2..], Normalize(file)))
      else Glob(Split(normal), Split(Normalize(file)))
  }

  /** What a pattern promises: an exclusion is the negation of the rest, and otherwise the
      segments of the file, after the empty one before the first slash, are denoted by
      those of the pattern. */
  ghost predicate Promises(pattern: string, file: string)
    decreases |pattern|
  {
    if Excludes(pattern) then !Promises(pattern[1..], file)
    else
      NormalizeLength(pattern);
      if Excludes(Normalize(pattern)[1..]) then !Promises(Normalize(pattern)[2..], file)
      else Denotes(SegmentCovers, Rooted(Canonical(pattern)), Rooted(Canonical(file)))
  }

  lemma SplitNormalized(path: string)
    ensures Split(Normalize(path)) == Rooted(Canonical(path))
    ensures Canonical(Normalize(path)) == Canonical(path)
  {
    CanonicalIsProper(path);
    SplitOfNormal(Canonical(path));
  }

  /** Spellings of a file with the same normal form get the same answer, from any pattern. */
  lemma {:induction false} SameFileSameAnswer(pattern: string, a: string, b: string)
    requires Normalize(a) == Normalize(b)
    ensures MatchPathPattern(pattern, a) == MatchPathPattern(pattern, b)
    decreases |pattern|
  {
    if Excludes(pattern) { SameFileSameAnswer(pattern[1..], a, b); }
  }

  lemma {:induction false} PromisesSameFile(pattern: string, file: string)
    ensures Promises(pattern, Normalize(file)) == Promises(pattern, file)
    decreases |pattern|
  {
    SplitNormalized(file);
    if Excludes(pattern) {
      PromisesSameFile(pattern[1..], file);
    } else {
      NormalizeLength(pattern);
      if Excludes(Normalize(pattern)[1..]) { PromisesSameFile(Normalize(pattern)[2..], file); }
    }
  }

  /** The matcher decides exactly what the pattern promises. */
  lemma {:induction false} MatchIsPromised(pattern: string, file: string)
    requires NoMark(pattern)
    ensures MatchPathPattern(pattern, file) == Some(Promises(pattern, file))
    decreases |pattern|
  {
    if Excludes(pattern) {
      MatchIsPromised(pattern[1..], file);
    } else {
      var normal := Normalize(pattern);
      NormalizeLength(pattern);
      NormalizeWithout(pattern, '?');
      if Excludes(normal[1..]) {
        MatchIsPromised(normal[2..], Normalize(file));
        PromisesSameFile(normal[2..], file);
      } else {
        SplitNormalized(pattern);
        SplitNormalized(file);
        SplitWithout(normal, '?');
        GlobIsDenoted(Split(normal), Split(Normalize(file)));
      }
    }
  }

  // ----- spellings of a pattern -----

  /** How deep the segments kept are stacked at the end; None if a `..` ever finds nothing
      left to take away. */
  function Height(segments: seq<string>): Option<nat> {
    if segments == [] then Some(0)
    else
      var last := segments[|segments| - 1];
      match Height(segments[..|segments| - 1])
      case None => None
      case Some(h) =>
        if last == "" || last == "." then Some(h)
        else if last == ".." then if h == 0 then None else Some(h - 1)
        else Some(h + 1)
  }

  lemma {:induction false} OnTopOf(bottom: string, segments: seq<string>)
    ensures Process([bottom], segments) == (if Height(segments).Some? then [bottom] else []) + Process([], segments)
    ensures Height(segments).Some? ==> Height(segments).value == |Process([], segments)|
    decreases |segments|
  {
    if segments != [] { OnTopOf(bottom, segments[..|segments| - 1]); }
  }

  function Bangs(pattern: string): nat {
    if Excludes(pattern) then 1 + Bangs(pattern[1..]) else 0
  }

  function Negated(answer: Option<bool>, times: nat): Option<bool> {
    if times % 2 == 0 then answer else Not(answer)
  }

  lemma {:induction false} BangsAreExclusions(pattern: string)
    ensures Bangs(pattern) <= |pattern| && !Excludes(pattern[Bangs(pattern)..])
    ensures forall i :: 0 <= i < Bangs(pattern) ==> pattern[i] == '!'
  {
    if Excludes(pattern) {
      BangsAreExclusions(pattern[1..]);
      assert pattern[1..][Bangs(pattern) - 1..] == pattern[Bangs(pattern)..];
    } else {
      assert pattern[0..] == pattern;
    }
  }

  lemma MatchOfExclusion(pattern: string, file: string)
    requires Excludes(pattern)
    ensures MatchPathPattern(pattern, file) == Not(MatchPathPattern(pattern[1..], file))
  {
  }

  lemma NotNegated(answer: Option<bool>, times: nat)
    ensures Not(Negated(answer, times)) == Negated(answer, times + 1)
  {
  }

  /** What is left of a pattern after its leading exclusions. */
  function Stem(pattern: string): string {
    if Excludes(pattern) then Stem(pattern[1..]) else pattern
  }

  lemma {:induction false} StemIs(pattern: string)
    ensures Bangs(pattern) <= |pattern| && Stem(pattern) == pattern[Bangs(pattern)..]
  {
    BangsAreExclusions(pattern);
    if Excludes(pattern) {
      StemIs(pattern[1..]);
      assert pattern[1..][Bangs(pattern) - 1..] == pattern[Bangs(pattern)..];
    } else {
      assert pattern[0..] == pattern;
    }
  }

  /** One leading exclusion more. */
  lemma BangNegates(pattern: string, file: string)
    requires Excludes(pattern)
    requires MatchPathPattern(pattern[1..], file)
          == Negated(MatchPathPattern(Stem(pattern[1..]), file), Bangs(pattern[1..]))
    ensures MatchPathPattern(pattern, file) == Negated(MatchPathPattern(Stem(pattern), file), Bangs(pattern))
  {
    var answer := MatchPathPattern(Stem(pattern), file);
    assert Stem(pattern) == Stem(pattern[1..]) && Bangs(pattern) == Bangs(pattern[1..]) + 1;
    NotNegated(answer, Bangs(pattern[1..]));
    assert MatchPathPattern(pattern, file) == Not(MatchPathPattern(pattern[1..], file)) by {
      MatchOfExclusion(pattern, file);
    }
  }

  lemma {:induction false} BangsNegateStem(pattern: string, file: string)
    ensures MatchPathPattern(pattern, file) == Negated(MatchPathPattern(Stem(pattern), file), Bangs(pattern))
  {
    if Excludes(pattern) {
      BangsNegateStem(pattern[1..], file);
      BangNegates(pattern, file);
    }
  }

  lemma BangsNegate(pattern: string, file: string)
    ensures Bangs(pattern) <= |pattern|
    ensures MatchPathPattern(pattern, file)
         == Negated(MatchPathPattern(pattern[Bangs(pattern)..], file), Bangs(pattern))
  {
    StemIs(pattern);
    BangsNegateStem(pattern, file);
  }

  lemma {:induction false} BangsOf(bangs: string, stem: string)
    requires !Excludes(stem) && forall i :: 0 <= i < |bangs| ==> bangs[i] == '!'
    ensures Bangs(bangs + stem) == |bangs|
  {
    if bangs == "" {
      assert bangs + stem == stem;
    } else {
      BangsOf(bangs[1..], stem);
      assert (bangs + stem)[1..] == bangs[1..] + stem;
    }
  }

  lemma NegatedByBangs(bangs: string, stem: string, file: string)
    requires !Excludes(stem) && forall i :: 0 <= i < |bangs| ==> bangs[i] == '!'
    ensures MatchPathPattern(bangs + stem, file) == Negated(MatchPathPattern(stem, file), |bangs|)
  {
    BangsOf(bangs, stem);
    BangsNegate(bangs + stem, file);
    assert (bangs + stem)[|bangs|..] == stem;
  }

  lemma {:induction false} SplitAfterPrefix(prefix: string, s: string)
    requires NoSlash(prefix)
    ensures Split(prefix + s) == [prefix + Split(s)[0]] + Split(s)[1..]
  {
    if prefix == "" {
      assert prefix + s == s && prefix + Split(s)[0] == Split(s)[0];
    } else {
      assert prefix == [prefix[0]] + prefix[1..] && NoSlash(prefix[1..]);
      SplitAfterPrefix(prefix[1..], s);
      assert (prefix + s)[1..] == prefix[1..] + s;
      assert prefix + Split(s)[0] == [prefix[0]] + (prefix[1..] + Split(s)[0]);
    }
  }

  lemma ProcessFirst(first: string, rest: seq<string>)
    ensures Process([], [first] + rest) == Process(Step([], first), rest)
  {
    ProcessConcat([], [first], rest);
    assert [first][..0] == [];
  }

  /** The segments after the first one: what may take the first one away again. */
  function AfterFirst(pattern: string): seq<string> { Split(Slashed(pattern))[1..] }

  /** Two patterns that exclude nothing up front and have one normal form agree. */
  lemma SamePatternSameAnswer(a: string, b: string, file: string)
    requires !Excludes(a) && !Excludes(b) && Normalize(a) == Normalize(b)
    ensures MatchPathPattern(a, file) == MatchPathPattern(b, file)
  {
  }

  /** The first segment stays at the bottom unless the rest takes it away. */
  lemma CanonicalByFirst(path: string, first: string)
    requires Split(Slashed(path))[0] == first
    ensures Canonical(path)
         == (if Height(AfterFirst(path)).Some? then Step([], first) else []) + Process([], AfterFirst(path))
  {
    var rest := AfterFirst(path);
    assert Split(Slashed(path)) == [first] + rest;
    ProcessFirst(first, rest);
    OnTopOf(first, rest);
    assert Step([], first) == [] || Step([], first) == [first];
  }

  lemma BangsInFirst(bangs: string, stem: string)
    requires bangs != "" && (forall i :: 0 <= i < |bangs| ==> bangs[i] == '!')
    ensures var first := bangs + Split(Slashed(stem))[0];
            Split(Slashed(bangs + stem))[0] == first && AfterFirst(bangs + stem) == AfterFirst(stem)
            && Step([], first) == [first]
  {
    assert NoSlash(bangs);
    assert Slashed(bangs + stem) == bangs + Slashed(stem);
    SplitAfterPrefix(bangs, Slashed(stem));
    assert (bangs + Split(Slashed(stem))[0])[0] == '!';
  }

  /** A pattern as exclusions, its first segment, and what is left of the others. */
  lemma NormalOfBangs(bangs: string, stem: string)
    requires bangs != "" && forall i :: 0 <= i < |bangs| ==> bangs[i] == '!'
    ensures var first, rest := Split(Slashed(stem))[0], AfterFirst(stem);
            && Canonical(bangs + stem) == (if Height(rest).Some? then [bangs + first] else []) + Process([], rest)
            && Canonical(stem) == (if Height(rest).Some? then Step([], first) else []) + Process([], rest)
  {
    var first := Split(Slashed(stem))[0];
    BangsInFirst(bangs, stem);
    CanonicalByFirst(bangs + stem, bangs + first);
    CanonicalByFirst(stem, first);
  }

  lemma {:induction false} HeightOfProper(segments: seq<string>)
    requires Each(segments, Proper)
    ensures Height(segments) == Some(|segments|) && Process([], segments) == segments
    decreases |segments|
  {
    if segments != [] {
      var k := |segments| - 1;
      HeightOfProper(segments[..k]);
      assert Proper(segments[k]);
      assert segments == segments[..k] + [segments[k]];
    }
  }

  /** A first segment and proper ones after it, joined and read again. */
  lemma RejoinedReadsAlike(first: string, rest: seq<string>)
    requires NoSlash(first) && '\\' !in first && Each(rest, Proper)
    ensures Canonical(Join([first] + rest)) == Step([], first) + rest
  {
    var parts := [first] + rest;
    var t := Join(parts);
    forall i | 0 <= i < |parts| ensures NoSlash(parts[i]) && '\\' !in parts[i] {
      if i > 0 { assert Proper(rest[i - 1]); }
    }
    JoinWithout(parts, '\\');
    assert Slashed(t) == t;
    SplitOfJoin(parts);
    CanonicalByFirst(t, first);
    assert AfterFirst(t) == rest;
    HeightOfProper(rest);
  }

  lemma JoinAfterPrefix(prefix: string, first: string, rest: seq<string>)
    ensures Join([prefix + first] + rest) == prefix + Join([first] + rest)
  {
    var a, b := [prefix + first] + rest, [first] + rest;
    assert a[1..] == rest == b[1..];
    if rest != [] { assert prefix + (first + "/" + Join(rest)) == prefix + first + "/" + Join(rest); }
  }

  lemma MatchOfOlderSpelling(normal: string, file: string)
    requires Normalize(normal) == normal && Excludes(normal[1..])
    ensures MatchPathPattern(normal, file) == Not(MatchPathPattern(normal[2..], Normalize(file)))
  {
  }

  /** The older spelling: exclusions behind a leading slash. */
  lemma StripsExclusions(normal: string, bangs: string, t: string, file: string)
    requires bangs != "" && (forall i :: 0 <= i < |bangs| ==> bangs[i] == '!') && !Excludes(t)
    requires normal == "/" + bangs + t && Normalize(normal) == normal
    ensures MatchPathPattern(normal, file) == Negated(MatchPathPattern(t, Normalize(file)), |bangs|)
  {
    var fewer := bangs[1..];
    var rest := fewer + t;
    assert normal[2..] == rest && normal[1..][0] == '!';
    MatchOfOlderSpelling(normal, file);
    NegatedByBangs(fewer, t, Normalize(file));
    NotNegated(MatchPathPattern(t, Normalize(file)), |fewer|);
  }

  /** A pattern whose first segment keeps its exclusions when normalised. */
  lemma ExclusionsKept(bangs: string, stem: string, file: string)
    requires bangs != "" && (forall i :: 0 <= i < |bangs| ==> bangs[i] == '!') && !Excludes(stem)
    requires Height(AfterFirst(stem)).Some?
    ensures MatchPathPattern(Normalize(bangs + stem), file) == Negated(MatchPathPattern(stem, file), |bangs|)
  {
    var first, kept := Split(Slashed(stem))[0], Process([], AfterFirst(stem));
    var t, normal := Join([first] + kept), Normalize(bangs + stem);
    assert normal == "/" + bangs + t && Normalize(normal) == normal by {
      NormalOfBangs(bangs, stem);
      JoinAfterPrefix(bangs, first, kept);
      NormalizeIsIdempotent(bangs + stem);
    }
    FirstOfStem(stem, kept);
    StripsExclusions(normal, bangs, t, file);
    assert MatchPathPattern(t, Normalize(file)) == MatchPathPattern(stem, file) by {
      SameAsStem(bangs, stem, file);
    }
  }

  lemma SameAsStem(bangs: string, stem: string, file: string)
    requires bangs != "" && (forall i :: 0 <= i < |bangs| ==> bangs[i] == '!') && !Excludes(stem)
    requires Height(AfterFirst(stem)).Some?
    ensures MatchPathPattern(Join([Split(Slashed(stem))[0]] + Process([], AfterFirst(stem))), Normalize(file))
            == MatchPathPattern(stem, file)
  {
    var first, kept := Split(Slashed(stem))[0], Process([], AfterFirst(stem));
    NormalOfBangs(bangs, stem);
    KeptIsProper(stem);
    RejoinedReadsAlike(first, kept);
    FirstOfStem(stem, kept);
    SamePatternSameAnswer(Join([first] + kept), stem, Normalize(file));
    NormalizeIsIdempotent(file);
    SameFileSameAnswer(stem, file, Normalize(file));
  }

  lemma ExclusionsLost(bangs: string, stem: string, file: string)
    requires bangs != "" && (forall i :: 0 <= i < |bangs| ==> bangs[i] == '!') && !Excludes(stem)
    requires Height(AfterFirst(stem)).None?
    ensures MatchPathPattern(Normalize(bangs + stem), file) == MatchPathPattern(stem, file)
  {
    NormalOfBangs(bangs, stem);
    NormalizeIsIdempotent(bangs + stem);
    SamePatternSameAnswer(stem, Normalize(bangs + stem), file);
  }

  lemma KeptIsProper(stem: string)
    ensures Each(Process([], AfterFirst(stem)), Proper)
    ensures NoSlash(Split(Slashed(stem))[0]) && '\\' !in Split(Slashed(stem))[0]
  {
    var parts, kept := Split(Slashed(stem)), Process([], AfterFirst(stem));
    SplitWithout(Slashed(stem), '\\');
    forall i | 0 <= i < |kept| ensures Proper(kept[i]) {
      ProcessKeeps([], AfterFirst(stem), kept[i]);
      var j :| 0 <= j < |parts| && parts[j] == kept[i];
      assert NoSlash(parts[j]);
    }
  }

  lemma FirstOfStem(stem: string, rest: seq<string>)
    requires !Excludes(stem)
    ensures !Excludes(Join([Split(Slashed(stem))[0]] + rest))
  {
    var first := Split(Slashed(stem))[0];
    if first != "" { assert first[0] == stem[0]; }
  }

  lemma ParityTells(answer: Option<bool>, times: nat)
    requires answer.Some?
    ensures Negated(answer, times) == answer <==> times % 2 == 0
  {
  }

  lemma ExclusionsSpelled(bangs: string, stem: string, file: string)
    requires bangs != "" && (forall i :: 0 <= i < |bangs| ==> bangs[i] == '!') && !Excludes(stem) && NoMark(stem)
    ensures Negated(MatchPathPattern(stem, file), |bangs|) == MatchPathPattern(Normalize(bangs + stem), file)
            <==> |bangs| % 2 == 0 || Height(AfterFirst(bangs + stem)).Some?
  {
    BangsInFirst(bangs, stem);
    var answer := MatchPathPattern(stem, file);
    assert answer.Some? by { MatchIsPromised(stem, file); }
    if Height(AfterFirst(stem)).Some? {
      ExclusionsKept(bangs, stem, file);
    } else {
      ExclusionsLost(bangs, stem, file);
      ParityTells(answer, |bangs|);
    }
  }

  /** Normalising a pattern changes its meaning in one case only: an odd number of leading
      exclusions, on a first segment that a later `..` takes away. */
  lemma SpellingMattersExactlyWhen(pattern: string, file: string)
    requires NoMark(pattern)
    ensures MatchPathPattern(pattern, file) == MatchPathPattern(Normalize(pattern), file)
            <==> Bangs(pattern) % 2 == 0 || Height(AfterFirst(pattern)).Some?
  {
    if !Excludes(pattern) {
      NormalizeIsIdempotent(pattern);
      SamePatternSameAnswer(pattern, Normalize(pattern), file);
    } else {
      var n := Bangs(pattern);
      BangsAreExclusions(pattern);
      BangsNegate(pattern, file);
      assert pattern == pattern[..n] + pattern[n..];
      ExclusionsSpelled(pattern[..n], pattern[n..], file);
    }
  }

  /** One such pattern: everything but "b", and "b" itself once it is normalised. */
  lemma SpellingMatters(pattern: string, file: string)
    requires pattern == "!a/../b"
    ensures MatchPathPattern(pattern, file) != MatchPathPattern(Normalize(pattern), file)
  {
    var parts := ["!a", "..", "b"];
    JoinsTo(parts);
    TakesFirstAway(parts, pattern);
    OnceExcluded(pattern);
    TakenAwayMatters(pattern, file);
  }

  lemma JoinsTo(parts: seq<string>)
    requires parts == ["!a", "..", "b"]
    ensures Join(parts) == "!a/../b"
  {
    assert parts[1..] == ["..", "b"] && parts[1..][1..] == ["b"];
    assert Join(["b"]) == "b" && Join(["..", "b"]) == "../b";
  }

  lemma TakesFirstAway(parts: seq<string>, pattern: string)
    requires |parts| == 3 && parts[1] == ".." && Join(parts) == pattern && Each(parts, NoSlash)
             && Slashed(pattern) == pattern
    ensures Height(AfterFirst(pattern)).None?
  {
    SplitOfJoin(parts);
    var rest := parts[1..];
    assert rest[..1] == [".."] && [".."][..0] == [];
  }

  lemma OnceExcluded(pattern: string)
    requires |pattern| > 1 && pattern[0] == '!' && pattern[1] != '!'
    ensures Bangs(pattern) == 1
  {
  }

  lemma TakenAwayMatters(pattern: string, file: string)
    requires NoMark(pattern) && Bangs(pattern) == 1 && Height(AfterFirst(pattern)).None?
    ensures MatchPathPattern(pattern, file) != MatchPathPattern(Normalize(pattern), file)
  {
    SpellingMattersExactlyWhen(pattern, file);
  }
}
