/** Locating files for a request: reading under a shared byte budget, and keeping only the
    best-scored files while scanning. */
module ContextLocate {
  import opened Options

  // ----- reading under a budget -----

  /** What meets one read: a pending abort, a refusal by the workspace authority, a failing
      stat, the size the stat reports, the content, and how the read itself may fail. */
  datatype Attempt = Attempt(abortSignalled: bool, denied: bool, statFails: bool, isRegular: bool, size: nat,
                             content: string, readFault: Option<ReadFault>)

  datatype ReadFault = ReadAborted | ReadFailed

  function Min(a: int, b: int): int { if a <= b then a else b }

  /** The shared session of one operation. Characters stand for bytes. */
  class ContextMapReadSession {
    const budgetBytes: int
    const maxFileBytes: int
    const authorityMissing: bool
    var bytesRead: nat
    var budgetExhausted: bool
    var aborted: bool

    /** Never over budget, and exhausted whenever the budget is used up. */
    ghost predicate Valid()
      reads this
    {
      bytesRead > 0 ==> bytesRead <= budgetBytes && (bytesRead == budgetBytes ==> budgetExhausted)
    }

    constructor (budgetBytes: int, maxFileBytes: int, authorityMissing: bool)
      ensures Valid() && bytesRead == 0 && !budgetExhausted && !aborted
      ensures this.budgetBytes == budgetBytes && this.maxFileBytes == maxFileBytes
              && this.authorityMissing == authorityMissing
    {
      this.budgetBytes, this.maxFileBytes, this.authorityMissing := budgetBytes, maxFileBytes, authorityMissing;
      bytesRead, budgetExhausted, aborted := 0, false, false;
    }

    function Limit(a: Attempt, capBytes: int): int
      reads this
    {
      Min(Min(a.size, capBytes), Min(maxFileBytes, budgetBytes - bytesRead))
    }

    /** Whether the file is looked at: the session goes on, and nothing forbids it. */
    predicate Admits(a: Attempt)
      reads this
    {
      !aborted && !budgetExhausted && !a.abortSignalled && !authorityMissing && !a.denied && !a.statFails && a.isRegular
    }

    /** Reads a prefix within every limit. An empty file is a success; once the session is
        aborted or exhausted nothing is read any more. */
    method ReadTextWithOutcome(a: Attempt, capBytes: int) returns (ok: bool, text: string)
      requires Valid()
      modifies this`bytesRead, this`budgetExhausted, this`aborted
      ensures Valid() && bytesRead == old(bytesRead) + |text| && text <= a.content
      ensures ok <==> old(Admits(a)) && if old(Limit(a, capBytes)) <= 0 then a.size == 0 else a.readFault.None?
      ensures text == if ok && old(Limit(a, capBytes)) > 0 then a.content[..Min(old(Limit(a, capBytes)), |a.content|)]
                      else ""
      ensures aborted <==> old(aborted) || (!old(budgetExhausted) && a.abortSignalled)
                           || (old(Admits(a)) && old(Limit(a, capBytes)) > 0 && a.readFault == Some(ReadAborted))
      ensures budgetExhausted <==> old(budgetExhausted) || (old(Admits(a)) && old(Limit(a, capBytes)) <= 0 < a.size)
                                   || (ok && old(Limit(a, capBytes)) > 0 && bytesRead >= budgetBytes)
    {
      if aborted || budgetExhausted { return false, ""; }
      if a.abortSignalled {
        aborted := true;
        return false, "";
      }
      if authorityMissing || a.denied || a.statFails || !a.isRegular { return false, ""; }
      var limit := Limit(a, capBytes);
      if limit <= 0 {
        if a.size > 0 { budgetExhausted := true; }
        return a.size == 0, "";
      }
      if a.readFault.Some? {
        if a.readFault.value.ReadAborted? { aborted := true; }
        return false, "";
      }
      text := a.content[..Min(limit, |a.content|)];
      bytesRead := bytesRead + |text|;
      if bytesRead >= budgetBytes { budgetExhausted := true; }
      return true, text;
    }
  }

  // ----- keeping the best -----

  datatype Hit = Hit(file: string, text: string, score: int)

  /** No hit that was let go scores above one that was kept. */
  ghost predicate NoneBetter(kept: seq<Hit>, letGo: multiset<Hit>) {
    forall a, b :: a in letGo && b in kept ==> a.score <= b.score
  }

  /** The best `k` of everything seen, and nothing lost. */
  ghost predicate BestOf(kept: seq<Hit>, letGo: multiset<Hit>, seen: multiset<Hit>, k: nat) {
    && multiset(kept) + letGo == seen && NoneBetter(kept, letGo)
    && |kept| <= k && (letGo != multiset{} ==> |kept| == k)
  }

  lemma Grown(kept: seq<Hit>, letGo: multiset<Hit>, seen: multiset<Hit>, k: nat, entry: Hit)
    requires BestOf(kept, letGo, seen, k) && |kept| < k
    ensures BestOf(kept + [entry], letGo, seen + multiset{entry}, k)
  {
  }

  lemma Refused(kept: seq<Hit>, letGo: multiset<Hit>, seen: multiset<Hit>, k: nat, entry: Hit)
    requires BestOf(kept, letGo, seen, k) && |kept| == k && forall b :: b in kept ==> entry.score <= b.score
    ensures BestOf(kept, letGo + multiset{entry}, seen + multiset{entry}, k)
  {
  }

  lemma Replaced(kept: seq<Hit>, letGo: multiset<Hit>, seen: multiset<Hit>, k: nat, low: nat, entry: Hit)
    requires BestOf(kept, letGo, seen, k) && |kept| == k && low < k
    requires (forall b :: b in kept ==> kept[low].score <= b.score) && entry.score > kept[low].score
    ensures BestOf(kept[low := entry], letGo + multiset{kept[low]}, seen + multiset{entry}, k)
  {
    var after := kept[low := entry];
    assert multiset(after) + multiset{kept[low]} == multiset(kept) + multiset{entry};
    assert forall b :: b in after ==> b == entry || b in kept;
  }

  method Lowest(kept: seq<Hit>) returns (low: nat)
    requires kept != []
    ensures low < |kept| && forall b :: b in kept ==> kept[low].score <= b.score
  {
    low := 0;
    var i := 1;
    while i < |kept|
      invariant low < i <= |kept| && forall j :: 0 <= j < i ==> kept[low].score <= kept[j].score
    {
      if kept[i].score < kept[low].score { low := i; }
      i := i + 1;
    }
  }

  class Selection {
    var kept: seq<Hit>
    ghost var letGo: multiset<Hit>
    ghost var seen: multiset<Hit>

    ghost predicate Valid(k: nat)
      reads this
    {
      BestOf(kept, letGo, seen, k)
    }

    constructor ()
      ensures kept == [] && letGo == multiset{} && seen == multiset{}
    {
      kept, letGo, seen := [], multiset{}, multiset{};
    }

    /** A full selection replaces its lowest hit, and only by a better one. */
    method PushTopK(entry: Hit, k: nat)
      requires 0 < k && Valid(k)
      modifies this
      ensures Valid(k) && seen == old(seen) + multiset{entry}
    {
      ghost var before := seen;
      seen := seen + multiset{entry};
      if |kept| < k {
        Grown(kept, letGo, before, k, entry);
        kept := kept + [entry];
        return;
      }
      var low := Lowest(kept);
      if entry.score > kept[low].score {
        Replaced(kept, letGo, before, k, low, entry);
        letGo := letGo + multiset{kept[low]};
        kept := kept[low := entry];
      } else {
        Refused(kept, letGo, before, k, entry);
        letGo := letGo + multiset{entry};
      }
    }

    /** A text that is empty or scores nothing is passed over. */
    method Consider(file: string, text: string, score: string -> int, k: nat)
      requires 0 < k && Valid(k)
      modifies this
      ensures Valid(k) && seen == old(seen) + multiset(HitOf(file, text, score))
    {
      if text == "" { return; }
      var points := score(text);
      if points <= 0 { return; }
      PushTopK(Hit(file, text, points), k);
    }
  }

  // ----- the scan -----

  /** What a text read from a file is worth: a hit, if it scores. */
  function HitOf(file: string, text: string, score: string -> int): seq<Hit> {
    if text != "" && score(text) > 0 then [Hit(file, text, score(text))] else []
  }

  datatype Candidate = Candidate(file: string, attempt: Attempt)

  /** The positively scored hits among the texts read. */
  function Scored(files: seq<Candidate>, texts: seq<string>, score: string -> int): (hits: seq<Hit>)
    requires |texts| <= |files|
    decreases |texts|
  {
    if texts == [] then []
    else
      var k := |texts| - 1;
      Scored(files, texts[..k], score) + HitOf(files[k].file, texts[k], score)
  }

  /** Scans the files in order until one is left unread for want of budget or by an abort.
      Of all positively scored texts read, the best `k` are kept. */
  method Locate(files: seq<Candidate>, score: string -> int, session: ContextMapReadSession, capBytes: int, k: nat)
    returns (kept: seq<Hit>, ghost texts: seq<string>, ghost letGo: multiset<Hit>)
    requires session.Valid() && 0 < k
    modifies session`bytesRead, session`budgetExhausted, session`aborted
    ensures session.Valid() && ReadFrom(files, texts)
            && (|texts| < |files| ==> session.aborted || session.budgetExhausted)
    ensures session.bytesRead == old(session.bytesRead) + Total(texts)
    ensures BestOf(kept, letGo, multiset(Scored(files, texts, score)), k)
    ensures |kept| == Min(k, |Scored(files, texts, score)|)
  {
    var selection := new Selection();
    var i := 0;
    texts := [];
    while i < |files|
      invariant i <= |files| && |texts| == i && session.Valid() && fresh(selection)
      invariant ReadFrom(files, texts) && session.bytesRead == old(session.bytesRead) + Total(texts)
      invariant selection.Valid(k) && selection.seen == multiset(Scored(files, texts, score))
    {
      if session.aborted || session.budgetExhausted { break; }
      var _, text := session.ReadTextWithOutcome(files[i].attempt, capBytes);
      OneMoreRead(files, texts, text);
      OneMoreText(files, texts, text, score);
      texts := texts + [text];
      selection.Consider(files[i].file, text, score, k);
      i := i + 1;
    }
    kept, letGo := selection.kept, selection.letGo;
    KeptCount(kept, letGo, Scored(files, texts, score), k);
  }

  /** Each text is a prefix of its file, in the order of the files. */
  ghost predicate ReadFrom(files: seq<Candidate>, texts: seq<string>) {
    |texts| <= |files| && forall i :: 0 <= i < |texts| ==> texts[i] <= files[i].attempt.content
  }

  lemma OneMoreText(files: seq<Candidate>, texts: seq<string>, text: string, score: string -> int)
    requires |texts| < |files|
    ensures Total(texts + [text]) == Total(texts) + |text|
    ensures Scored(files, texts + [text], score)
            == Scored(files, texts, score) + HitOf(files[|texts|].file, text, score)
  {
    var k, longer := |texts|, texts + [text];
    assert longer[..k] == texts && longer[k] == text;
    ScoredUnfolds(files, longer, score);
    TotalUnfolds(longer);
  }

  lemma OneMoreRead(files: seq<Candidate>, texts: seq<string>, text: string)
    requires ReadFrom(files, texts) && |texts| < |files| && text <= files[|texts|].attempt.content
    ensures ReadFrom(files, texts + [text])
  {
  }

  lemma ScoredUnfolds(files: seq<Candidate>, texts: seq<string>, score: string -> int)
    requires 0 < |texts| <= |files|
    ensures var k := |texts| - 1;
            Scored(files, texts, score) == Scored(files, texts[..k], score) + HitOf(files[k].file, texts[k], score)
  {
  }

  lemma TotalUnfolds(texts: seq<string>)
    requires texts != []
    ensures Total(texts) == Total(texts[..|texts| - 1]) + |texts[|texts| - 1]|
  {
  }

  function Total(texts: seq<string>): nat {
    if texts == [] then 0 else Total(texts[..|texts| - 1]) + |texts[|texts| - 1]|
  }

  lemma KeptCount(kept: seq<Hit>, letGo: multiset<Hit>, hits: seq<Hit>, k: nat)
    requires BestOf(kept, letGo, multiset(hits), k)
    ensures |kept| == Min(k, |hits|)
  {
    assert |multiset(kept) + letGo| == |hits|;
    assert |multiset(kept)| == |kept|;
  }

  // ----- what is kept does not depend on the order of the scan -----

  function CountFrom(hits: seq<Hit>, score: int): nat
    decreases |hits|
  {
    if hits == [] then 0 else CountFrom(hits[..|hits| - 1], score) + if hits[|hits| - 1].score >= score then 1 else 0
  }

  lemma {:induction false} CountFromAdds(a: seq<Hit>, b: seq<Hit>, score: int)
    ensures CountFrom(a + b, score) == CountFrom(a, score) + CountFrom(b, score)
    decreases |b|
  {
    if b == [] {
      assert a + b == a;
    } else {
      CountFromAdds(a, b[..|b| - 1], score);
      assert (a + b)[..|a + b| - 1] == a + b[..|b| - 1];
    }
  }

  lemma TakenOut(hits: seq<Hit>, i: nat, score: int)
    requires i < |hits|
    ensures var rest := hits[..i] + hits[i + 1..];
            && multiset(hits) == multiset(rest) + multiset{hits[i]}
            && CountFrom(hits, score) == CountFrom(rest, score) + if hits[i].score >= score then 1 else 0
  {
    var before, one, after := hits[..i], [hits[i]], hits[i + 1..];
    assert hits == before + (one + after);
    CountFromAdds(before, one + after, score);
    CountFromAdds(one, after, score);
    CountFromAdds(before, after, score);
    assert one[..0] == [];
  }

  lemma {:induction false} CountFromPermuted(a: seq<Hit>, b: seq<Hit>, score: int)
    requires multiset(a) == multiset(b)
    ensures CountFrom(a, score) == CountFrom(b, score)
    decreases |a|
  {
    if a == [] {
      assert |b| == |multiset(b)|;
    } else {
      var k := |a| - 1;
      assert a[k] in multiset(b);
      var i :| 0 <= i < |b| && b[i] == a[k];
      TakenOut(a, k, score);
      TakenOut(b, i, score);
      var restA, restB := a[..k] + a[k + 1..], b[..i] + b[i + 1..];
      assert multiset(restA) == multiset(a) - multiset{a[k]} && multiset(restB) == multiset(b) - multiset{a[k]};
      CountFromPermuted(restA, restB, score);
    }
  }

  lemma {:induction false} CountFromAll(hits: seq<Hit>, score: int)
    ensures CountFrom(hits, score) <= |hits|
    ensures (forall h :: h in hits ==> h.score >= score) ==> CountFrom(hits, score) == |hits|
    decreases |hits|
  {
    if hits != [] { CountFromAll(hits[..|hits| - 1], score); }
  }

  lemma {:induction false} CountFromSome(hits: seq<Hit>, score: int)
    requires CountFrom(hits, score) > 0
    ensures exists h :: h in hits && h.score >= score
    decreases |hits|
  {
    var k := |hits| - 1;
    if hits[k].score < score { CountFromSome(hits[..k], score); } else { assert hits[k] in hits; }
  }

  /** For every score, as many hits reach it among those kept as among all seen, up to `k`:
      the scores kept are the same whatever the order of the scan. */
  lemma KeptByScore(kept: seq<Hit>, letGo: seq<Hit>, hits: seq<Hit>, k: nat, score: int)
    requires BestOf(kept, multiset(letGo), multiset(hits), k)
    ensures CountFrom(kept, score) == Min(k, CountFrom(hits, score))
  {
    CountFromPermuted(kept + letGo, hits, score);
    CountFromAdds(kept, letGo, score);
    CountFromAll(kept, score);
    if CountFrom(letGo, score) > 0 {
      CountFromSome(letGo, score);
      var a :| a in letGo && a.score >= score;
      assert a in multiset(letGo);
      assert forall b :: b in kept ==> b.score >= score;
      assert multiset(letGo) != multiset{};
    }
  }
}
