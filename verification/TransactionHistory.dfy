/** The commit history that verification evidence is bound to: a rolling identifier, a
    counter and the last transaction, advanced by every commit and every rollback. */
module TransactionHistory {
  import opened Options

  datatype Event = Committed(txId: string) | RolledBack(txId: string)

  datatype History = History(stateId: string, transactionCount: nat, latestTransactionId: Option<string>)

  datatype Binding = Binding(stateId: string, transactionCount: nat, latestTransactionId: string)

  const NUL: char := 0 as char

  const EmptyHistory := History("txstate_empty", 0, None)

  /** The text that is hashed: a rollback carries a marker of its own. */
  function Preimage(stateId: string, event: Event): string {
    match event
    case Committed(txId) => stateId + [NUL] + txId
    case RolledBack(txId) => stateId + [NUL] + ("rb" + [NUL] + txId)
  }

  function Advance(digest: string -> string, h: History, event: Event): History {
    History("txstate_" + digest(Preimage(h.stateId, event)), h.transactionCount + 1, Some(event.txId))
  }

  /** The history after a run's events, oldest first. */
  function Replay(digest: string -> string, log: seq<Event>): History {
    if log == [] then EmptyHistory
    else Advance(digest, Replay(digest, log[..|log| - 1]), log[|log| - 1])
  }

  /** How many events of a history are rollbacks. */
  function Rollbacks(log: seq<Event>): nat {
    if log == [] then 0 else Rollbacks(log[..|log| - 1]) + if log[|log| - 1].RolledBack? then 1 else 0
  }

  lemma OneEvent(event: Event)
    ensures Rollbacks([event]) == if event.RolledBack? then 1 else 0
  {
    assert [event][..0] == [];
  }

  /** What evidence collected now is bound to. Once a write bypassed the transactions,
      the history no longer says what the files hold, and there is nothing to bind to. */
  function CurrentBinding(h: History, unmanagedWrites: bool): Option<Binding> {
    if unmanagedWrites || h.transactionCount == 0 || h.latestTransactionId in {None, Some("")} then None
    else Some(Binding(h.stateId, h.transactionCount, h.latestTransactionId.value))
  }

  lemma {:induction false} ReplayCounts(digest: string -> string, log: seq<Event>)
    ensures Replay(digest, log).transactionCount == |log|
    ensures log == [] <==> Replay(digest, log).latestTransactionId.None?
  {
    if log != [] { ReplayCounts(digest, log[..|log| - 1]); }
  }

  /** A binding captured at one point of a run no longer matches after any further
      commit or rollback, whatever the hash does: the counter alone has moved on. */
  lemma LaterBindingDiffers(digest: string -> string, before: seq<Event>, after: seq<Event>, unmanaged: bool,
                            unmanagedLater: bool)
    requires before < after
    ensures CurrentBinding(Replay(digest, before), unmanaged).Some? ==>
              CurrentBinding(Replay(digest, before), unmanaged) != CurrentBinding(Replay(digest, after), unmanagedLater)
  {
    ReplayCounts(digest, before);
    ReplayCounts(digest, after);
  }

  // ----- identity across runs -----

  predicate IsHex(s: string) {
    forall c :: c in s ==> '0' <= c <= '9' || 'a' <= c <= 'f'
  }

  /** A hash without collisions whose output is hexadecimal. */
  ghost predicate CollisionFree(digest: string -> string) {
    (forall s :: IsHex(digest(s))) && forall s, t :: digest(s) == digest(t) ==> s == t
  }

  predicate Readable(log: seq<Event>) {
    forall e :: e in log ==> NUL !in e.txId
  }

  lemma FirstNulSplits(a: string, x: string, b: string, y: string)
    requires NUL !in a && NUL !in b && a + [NUL] + x == b + [NUL] + y
    ensures a == b && x == y
  {
    var s, t := a + [NUL] + x, b + [NUL] + y;
    assert s[|a|] == NUL && t[|b|] == NUL;
    assert forall i :: 0 <= i < |a| ==> s[i] == a[i];
    assert forall i :: 0 <= i < |b| ==> t[i] == b[i];
    assert a == s[..|a|] && b == t[..|b|] && x == s[|a| + 1..] && y == t[|b| + 1..];
  }

  /** What follows the previous identifier in the text that is hashed. */
  function EventText(e: Event): string {
    if e.Committed? then e.txId else "rb" + [NUL] + e.txId
  }

  /** One event is a rollback, the other a commit whose id spells the rollback's text. */
  predicate Forges(e: Event, f: Event) {
    e.Committed? && f.RolledBack? && e.txId == "rb" + [NUL] + f.txId
  }

  lemma EventTextsAgree(e: Event, f: Event)
    ensures EventText(e) == EventText(f) <==> e == f || Forges(e, f) || Forges(f, e)
  {
    if e.RolledBack? && f.RolledBack? {
      assert EventText(e)[3..] == e.txId && EventText(f)[3..] == f.txId;
    }
  }

  /** Behind identifiers without NUL, two texts agree exactly when identifier and event do,
      or one event forges the other, whatever their ids hold. */
  lemma PreimagesAgreeExactlyWhen(p: string, e: Event, q: string, f: Event)
    requires NUL !in p && NUL !in q
    ensures Preimage(p, e) == Preimage(q, f) <==> p == q && (e == f || Forges(e, f) || Forges(f, e))
  {
    if Preimage(p, e) == Preimage(q, f) { FirstNulSplits(p, EventText(e), q, EventText(f)); }
    EventTextsAgree(e, f);
  }

  lemma PreimageIsUnambiguous(p: string, e: Event, q: string, f: Event)
    requires NUL !in p && NUL !in q && NUL !in e.txId && NUL !in f.txId
    requires Preimage(p, e) == Preimage(q, f)
    ensures p == q && e == f
  {
    PreimagesAgreeExactlyWhen(p, e, q, f);
    assert ("rb" + [NUL] + e.txId)[2] == NUL && ("rb" + [NUL] + f.txId)[2] == NUL;
  }

  lemma {:induction false} StateIdHasNoNul(digest: string -> string, log: seq<Event>)
    requires CollisionFree(digest)
    ensures NUL !in Replay(digest, log).stateId
    ensures log != [] ==> Replay(digest, log).stateId != "txstate_empty"
  {
    if log != [] {
      var hash := digest(Preimage(Replay(digest, log[..|log| - 1]).stateId, log[|log| - 1]));
      assert IsHex(hash);
      assert ("txstate_" + hash)[8..] == hash;
      assert "txstate_empty"[8..] == "empty" && 'm' in "empty" by { assert "empty"[1] == 'm'; }
    }
  }

  lemma SameIdSameEvent(digest: string -> string, p: string, e: Event, q: string, f: Event)
    requires CollisionFree(digest) && NUL !in p && NUL !in q && NUL !in e.txId && NUL !in f.txId
    requires "txstate_" + digest(Preimage(p, e)) == "txstate_" + digest(Preimage(q, f))
    ensures p == q && e == f
  {
    var hashE, hashF := digest(Preimage(p, e)), digest(Preimage(q, f));
    assert ("txstate_" + hashE)[8..] == hashE && ("txstate_" + hashF)[8..] == hashF;
    PreimageIsUnambiguous(p, e, q, f);
  }

  /** The identifier names its whole history: two runs, of whatever length, reach the
      same one only by the same commits and rollbacks in the same order. */
  lemma {:induction false} StateIdNamesHistory(digest: string -> string, log: seq<Event>, other: seq<Event>)
    requires CollisionFree(digest) && Readable(log) && Readable(other)
    requires Replay(digest, log).stateId == Replay(digest, other).stateId
    ensures log == other
    decreases |log|
  {
    if log == [] || other == [] {
      StateIdHasNoNul(digest, log);
      StateIdHasNoNul(digest, other);
    } else {
      var p, q := log[..|log| - 1], other[..|other| - 1];
      LastEventsAgree(digest, log, other);
      StateIdNamesHistory(digest, p, q);
      assert log == p + [log[|log| - 1]] && other == q + [other[|other| - 1]];
    }
  }

  lemma LastEventsAgree(digest: string -> string, log: seq<Event>, other: seq<Event>)
    requires CollisionFree(digest) && Readable(log) && Readable(other) && log != [] && other != []
    requires Replay(digest, log).stateId == Replay(digest, other).stateId
    ensures Replay(digest, log[..|log| - 1]).stateId == Replay(digest, other[..|other| - 1]).stateId
    ensures log[|log| - 1] == other[|other| - 1]
  {
    var e, f := log[|log| - 1], other[|other| - 1];
    var idP, idQ := Replay(digest, log[..|log| - 1]).stateId, Replay(digest, other[..|other| - 1]).stateId;
    StateIdHasNoNul(digest, log[..|log| - 1]);
    StateIdHasNoNul(digest, other[..|other| - 1]);
    assert e in log && f in other;
    assert Replay(digest, log).stateId == "txstate_" + digest(Preimage(idP, e));
    assert Replay(digest, other).stateId == "txstate_" + digest(Preimage(idQ, f));
    SameIdSameEvent(digest, idP, e, idQ, f);
  }

  /** The condition on transaction ids is needed: an id holding a NUL can make a commit
      look like a rollback. */
  lemma NulInIdForgesRollback(stateId: string, txId: string)
    ensures Preimage(stateId, Committed("rb" + [NUL] + txId)) == Preimage(stateId, RolledBack(txId))
  {
  }

  // ----- such hashes exist -----

  function Unary(c: char): string {
    seq(c as int, i => 'f') + "0"
  }

  function Spelled(s: string): string {
    if s == [] then [] else Unary(s[0]) + Spelled(s[1..])
  }

  lemma {:induction false} SpelledIsHex(s: string)
    ensures IsHex(Spelled(s))
  {
    if s != [] { SpelledIsHex(s[1..]); }
  }

  lemma UnarySplits(a: char, x: string, b: char, y: string)
    requires Unary(a) + x == Unary(b) + y
    ensures a == b && x == y
  {
    var m, n, s, t := a as int, b as int, Unary(a) + x, Unary(b) + y;
    assert s[m] == '0' && t[n] == '0';
    assert forall i :: 0 <= i < m ==> s[i] == 'f';
    assert forall i :: 0 <= i < n ==> t[i] == 'f';
    assert s[m + 1..] == x && t[n + 1..] == y;
  }

  lemma {:induction false} SpelledIsInjective(s: string, t: string)
    requires Spelled(s) == Spelled(t)
    ensures s == t
  {
    if s != [] && t != [] {
      UnarySplits(s[0], Spelled(s[1..]), t[0], Spelled(t[1..]));
      SpelledIsInjective(s[1..], t[1..]);
      assert s == [s[0]] + s[1..] && t == [t[0]] + t[1..];
    } else {
      assert s != [] ==> |Spelled(s)| > 0;
      assert t != [] ==> |Spelled(t)| > 0;
    }
  }

  lemma CollisionFreeHashExists()
    ensures CollisionFree(Spelled)
  {
    forall s ensures IsHex(Spelled(s)) { SpelledIsHex(s); }
    forall s, t | Spelled(s) == Spelled(t) ensures s == t { SpelledIsInjective(s, t); }
  }
}
