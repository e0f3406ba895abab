/** Paths spelled with slashes or backslashes, and the one normal form behind all
    spellings of a path. */
module PathSpelling {

  predicate NoSlash(s: string) { '/' !in s }

  predicate Each(parts: seq<string>, ok: string -> bool) {
    forall i :: 0 <= i < |parts| ==> ok(parts[i])
  }

  function Split(s: string): (parts: seq<string>)
    ensures parts != [] && Each(parts, NoSlash)
  {
    if s == "" then [""]
    else
      var rest := Split(s[1..]);
      if s[0] == '/' then [""] + rest
      else
        assert NoSlash(rest[0]) && NoSlash([s[0]] + rest[0]);
        [[s[0]] + rest[0]] + rest[1..]
  }

  function Join(parts: seq<string>): string {
    if parts == [] then "" else if |parts| == 1 then parts[0] else parts[0] + "/" + Join(parts[1..])
  }

  lemma {:induction false} SplitOfPart(part: string, rest: string)
    requires NoSlash(part)
    ensures Split(part + "/" + rest) == [part] + Split(rest)
  {
    var s := part + "/" + rest;
    if part == "" {
      assert s == "/" + rest && s[1..] == rest;
    } else {
      assert s[1..] == part[1..] + "/" + rest && part == [part[0]] + part[1..];
      assert NoSlash(part[1..]);
      SplitOfPart(part[1..], rest);
      assert Split(s)[0] == part;
    }
  }

  lemma {:induction false} SplitOfOne(part: string)
    requires NoSlash(part)
    ensures Split(part) == [part]
  {
    if part != "" {
      assert part == [part[0]] + part[1..] && NoSlash(part[1..]);
      SplitOfOne(part[1..]);
    }
  }

  /** Splitting undoes joining. */
  lemma {:induction false} SplitOfJoin(parts: seq<string>)
    requires parts != [] && Each(parts, NoSlash)
    ensures Split(Join(parts)) == parts
  {
    if |parts| == 1 {
      SplitOfOne(parts[0]);
    } else {
      SplitOfJoin(parts[1..]);
      SplitOfPart(parts[0], Join(parts[1..]));
    }
  }

  function Slashed(s: string): (r: string)
    ensures |r| == |s|
  {
    seq(|s|, i requires 0 <= i < |s| => if s[i] == '\\' then '/' else s[i])
  }

  /** One segment, read with the segments kept so far on a stack. */
  function Step(stack: seq<string>, segment: string): seq<string> {
    if segment == "" || segment == "." then stack
    else if segment == ".." then if stack == [] then [] else stack[..|stack| - 1]
    else stack + [segment]
  }

  function Process(stack: seq<string>, segments: seq<string>): seq<string>
    decreases |segments|
  {
    if segments == [] then stack else Step(Process(stack, segments[..|segments| - 1]), segments[|segments| - 1])
  }

  /** The segments of the normal form. */
  function Canonical(path: string): seq<string> {
    Process([], Split(Slashed(path)))
  }

  function Normalize(path: string): string {
    "/" + Join(Canonical(path))
  }

  method NormalizePathForPattern(path: string) returns (normal: string)
    ensures normal == Normalize(path)
  {
    var segments := Split(Slashed(path));
    var out: seq<string>, k := [], 0;
    while k < |segments|
      invariant k <= |segments| && out == Process([], segments[..k])
    {
      assert segments[..k + 1][..k] == segments[..k];
      var segment := segments[k];
      k := k + 1;
      if segment == "" || segment == "." { continue; }
      if segment == ".." {
        if |out| > 0 { out := out[..|out| - 1]; }
        continue;
      }
      out := out + [segment];
    }
    assert segments[..k] == segments;
    return "/" + Join(out);
  }

  // ----- what a normal form looks like -----

  predicate Proper(segment: string) {
    segment != "" && segment != "." && segment != ".." && NoSlash(segment) && '\\' !in segment
  }

  lemma {:induction false} SplitWithout(s: string, c: char)
    requires c !in s
    ensures forall i :: 0 <= i < |Split(s)| ==> c !in Split(s)[i]
  {
    if s != "" {
      assert s == [s[0]] + s[1..];
      SplitWithout(s[1..], c);
      var rest := Split(s[1..]);
      assert c !in rest[0] && c !in [s[0]] + rest[0];
    }
  }

  /** Reading segments makes none up. */
  lemma {:induction false} ProcessKeeps(stack: seq<string>, segments: seq<string>, segment: string)
    requires segment in Process(stack, segments)
    ensures segment in stack || (segment in segments && segment != "" && segment != "." && segment != "..")
    decreases |segments|
  {
    if segments != [] {
      var k := |segments| - 1;
      assert segments == segments[..k] + [segments[k]];
      if segment in Process(stack, segments[..k]) { ProcessKeeps(stack, segments[..k], segment); }
    }
  }

  /** No segment of the normal form is empty, `.` or `..`, and none hides a separator. */
  lemma CanonicalIsProper(path: string)
    ensures Each(Canonical(path), Proper)
  {
    var segments := Split(Slashed(path));
    SplitWithout(Slashed(path), '\\');
    forall i | 0 <= i < |Canonical(path)| ensures Proper(Canonical(path)[i]) {
      ProcessKeeps([], segments, Canonical(path)[i]);
      var j :| 0 <= j < |segments| && segments[j] == Canonical(path)[i];
      assert NoSlash(segments[j]);
    }
  }

  lemma {:induction false} JoinWithout(parts: seq<string>, c: char)
    requires c != '/' && forall i :: 0 <= i < |parts| ==> c !in parts[i]
    ensures c !in Join(parts)
  {
    if parts != [] { assert c !in parts[0]; }
    if |parts| > 1 { JoinWithout(parts[1..], c); }
  }

  lemma NormalizeWithout(path: string, c: char)
    requires c !in path && c != '/'
    ensures c !in Normalize(path)
  {
    var segments := Split(Slashed(path));
    SplitWithout(Slashed(path), c);
    forall i | 0 <= i < |Canonical(path)| ensures c !in Canonical(path)[i] {
      ProcessKeeps([], segments, Canonical(path)[i]);
      var j :| 0 <= j < |segments| && segments[j] == Canonical(path)[i];
    }
    JoinWithout(Canonical(path), c);
  }

  lemma {:induction false} ProcessProper(stack: seq<string>, segments: seq<string>)
    requires Each(segments, Proper)
    ensures Process(stack, segments) == stack + segments
    decreases |segments|
  {
    if segments != [] {
      var k := |segments| - 1;
      ProcessProper(stack, segments[..k]);
      assert Proper(segments[k]);
      assert segments == segments[..k] + [segments[k]];
    }
  }

  lemma {:induction false} ProcessConcat(stack: seq<string>, a: seq<string>, b: seq<string>)
    ensures Process(stack, a + b) == Process(Process(stack, a), b)
    decreases |b|
  {
    if b == [] {
      assert a + b == a;
    } else {
      ProcessConcat(stack, a, b[..|b| - 1]);
      assert (a + b)[..|a + b| - 1] == a + b[..|b| - 1];
    }
  }

  /** How a normal form splits again. */
  function Rooted(segments: seq<string>): seq<string> {
    [""] + if segments == [] then [""] else segments
  }

  lemma SplitOfNormal(segments: seq<string>)
    requires Each(segments, Proper)
    ensures Split("/" + Join(segments)) == Rooted(segments)
    ensures Slashed("/" + Join(segments)) == "/" + Join(segments)
    ensures Canonical("/" + Join(segments)) == segments
  {
    var path := "/" + Join(segments);
    assert '\\' !in path by {
      assert forall i :: 0 <= i < |segments| ==> Proper(segments[i]);
      JoinWithout(segments, '\\');
    }
    assert Slashed(path) == path;
    assert path == "" + "/" + Join(segments);
    SplitOfPart("", Join(segments));
    if segments != [] { SplitOfJoin(segments); }
    var skipped := if segments == [] then ["", ""] else [""];
    assert Rooted(segments) == skipped + segments;
    assert Process([], [""]) == [] by { assert [""][..0] == []; }
    assert Process([], ["", ""]) == [] by { assert ["", ""][..1] == [""]; }
    ProcessConcat([], skipped, segments);
    ProcessProper([], segments);
  }

  /** Normalising is idempotent. */
  lemma NormalizeIsIdempotent(path: string)
    ensures Canonical(Normalize(path)) == Canonical(path) && Normalize(Normalize(path)) == Normalize(path)
  {
    CanonicalIsProper(path);
    SplitOfNormal(Canonical(path));
  }

  // ----- length -----

  function Weight(parts: seq<string>): nat {
    if parts == [] then 0 else Weight(parts[..|parts| - 1]) + |parts[|parts| - 1]| + 1
  }

  lemma {:induction false} WeightFromFront(parts: seq<string>)
    requires parts != []
    ensures Weight(parts) == |parts[0]| + 1 + Weight(parts[1..])
  {
    if |parts| > 1 {
      var k := |parts| - 1;
      WeightFromFront(parts[..k]);
      assert parts[..k][1..] == parts[1..][..k - 1];
    }
  }

  lemma {:induction false} WeightOfSplit(s: string)
    ensures Weight(Split(s)) == |s| + 1
  {
    if s != "" {
      WeightOfSplit(s[1..]);
      var rest := Split(s[1..]);
      WeightFromFront(Split(s));
      WeightFromFront(rest);
      if s[0] == '/' { assert Split(s)[1..] == rest; } else { assert Split(s)[1..] == rest[1..]; }
    }
  }

  lemma {:induction false} JoinLength(parts: seq<string>)
    ensures |Join(parts)| <= if parts == [] then 0 else Weight(parts) - 1
  {
    if parts != [] { WeightFromFront(parts); }
    if |parts| > 1 { JoinLength(parts[1..]); }
  }

  lemma {:induction false} ProcessGetsLighter(stack: seq<string>, segments: seq<string>)
    ensures Weight(Process(stack, segments)) <= Weight(stack) + Weight(segments)
    decreases |segments|
  {
    if segments != [] {
      var before := Process(stack, segments[..|segments| - 1]);
      ProcessGetsLighter(stack, segments[..|segments| - 1]);
      var last := segments[|segments| - 1];
      assert (before + [last])[..|before|] == before;
    }
  }

  /** A normal form is at most one character longer. */
  lemma NormalizeLength(path: string)
    ensures |Normalize(path)| <= |path| + 1
  {
    ProcessGetsLighter([], Split(Slashed(path)));
    WeightOfSplit(Slashed(path));
    JoinLength(Canonical(path));
  }
}
