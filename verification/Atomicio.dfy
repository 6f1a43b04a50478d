/** Transferring all of a vector of buffers through calls that may stop short. */
module Atomicio {

  /** What one call of readv or writev, and the progress callback after it, did. */
  datatype Call =
    | Interrupted(stop: bool)
    | Again
    | Failed
    | Closed
    | Moved(n: nat, stop: bool)

  datatype Errno = Ok | Einval | Eintr | Epipe | Efault | Other

  /** `Waiting` when the calls given so far do not finish the transfer. */
  datatype Result = Returned(pos: nat, errno: Errno) | Waiting(pos: nat)

  function Concat<T>(iov: seq<seq<T>>): seq<T> { if iov == [] then [] else iov[0] + Concat(iov[1..]) }

  // ---------- the loop without its vectors ----------

  /** Only how much has gone and how much is left. */
  function Flat(pos: nat, left: nat, calls: seq<Call>): (r: Result)
    ensures r == Returned(r.pos, Ok) ==> r.pos == pos + left
    decreases |calls|
  {
    if left == 0 then Returned(pos, Ok)
    else if calls == [] then Waiting(pos)
    else match calls[0]
         case Interrupted(stop) => if stop then Returned(pos, Eintr) else Flat(pos, left, calls[1..])
         case Again => Flat(pos, left, calls[1..])
         case Failed => Returned(0, Other)
         case Closed => Returned(pos, Epipe)
         case Moved(n, stop) =>
           if n == 0 then Returned(pos, Epipe)
           else if n > left then Returned(0, Efault)
           else if stop then Returned(pos + n, Eintr)
           else Flat(pos + n, left - n, calls[1..])
  }

  /** Every call moves no more than is left to move. */
  predicate Honest(left: nat, calls: seq<Call>)
    decreases |calls|
  {
    calls == [] ||
    if calls[0].Moved? then calls[0].n <= left && Honest(left - calls[0].n, calls[1..]) else Honest(left, calls[1..])
  }

  /** The impossible branch is impossible. */
  lemma {:induction false} NeverFaults(pos: nat, left: nat, calls: seq<Call>)
    requires Honest(left, calls)
    ensures Flat(pos, left, calls) != Returned(0, Efault)
    decreases |calls|
  {
    if calls != [] && left > 0 {
      var n := if calls[0].Moved? then calls[0].n else 0;
      NeverFaults(pos + n, left - n, calls[1..]);
    }
  }

  function Total(calls: seq<Call>): nat {
    if calls == [] then 0 else (if calls[0].Moved? then calls[0].n else 0) + Total(calls[1..])
  }

  predicate Patient(c: Call) { c == Again || (c.Interrupted? && !c.stop) || (c.Moved? && c.n > 0 && !c.stop) }

  /** With honest calls that neither fail nor stop, the transfer completes as soon as enough has been moved. */
  lemma {:induction false} Completes(pos: nat, left: nat, calls: seq<Call>)
    requires Honest(left, calls) && forall c | c in calls :: Patient(c)
    ensures Flat(pos, left, calls)
         == if Total(calls) == left then Returned(pos + left, Ok) else Waiting(pos + Total(calls))
    decreases |calls|
  {
    HonestTotal(left, calls);
    if calls != [] && left > 0 {
      assert Patient(calls[0]);
      var n := if calls[0].Moved? then calls[0].n else 0;
      Completes(pos + n, left - n, calls[1..]);
    }
  }

  lemma {:induction false} HonestTotal(left: nat, calls: seq<Call>)
    requires Honest(left, calls)
    ensures Total(calls) <= left
    decreases |calls|
  {
    if calls != [] { HonestTotal(if calls[0].Moved? then left - calls[0].n else left, calls[1..]); }
  }

  // ---------- the loop over vectors ----------

  lemma {:induction false} ConcatFrom<T>(a: seq<seq<T>>, k: nat)
    requires k < |a|
    ensures Concat(a[k..]) == a[k] + Concat(a[k + 1..])
  {
    assert a[k..][1..] == a[k + 1..];
  }

  /** After any progress the vector at the front is not empty, unless nothing is left. */
  lemma Front<T>(a: seq<seq<T>>, k: nat)
    requires k <= |a| && (k < |a| ==> a[k] != [])
    ensures |Concat(a[k..])| == 0 <==> k == |a|
  {
    if k < |a| { ConcatFrom(a, k); }
  }

  /** Cut n bytes off the front: whole vectors first, then part of one. Fails if there are fewer than n. */
  method Consume<T>(iov: array<seq<T>>, first: nat, n: nat) returns (ok: bool, k: nat, took: seq<T>)
    requires first <= iov.Length
    modifies iov
    ensures first <= k <= iov.Length
    ensures ok <==> n <= |Concat(old(iov[first..]))|
    ensures Concat(old(iov[first..])) == took + Concat(iov[k..])
    ensures ok ==> |took| == n && (k < iov.Length ==> iov[k] != [])
  {
    hide Concat;
    k, took := first, [];
    ghost var all := Concat(iov[first..]);
    var rem := n;
    while k < iov.Length && rem >= |iov[k]|
      invariant first <= k <= iov.Length && |took| + rem == n && rem >= 0
      invariant all == took + Concat(iov[k..])
      modifies {}
    {
      ConcatFrom(iov[..], k);
      took := took + iov[k];
      rem := rem - |iov[k]|;
      k := k + 1;
    }
    if k == iov.Length {
      NoVectors<T>();
      assert iov[k..] == [];
      return rem == 0, k, took;
    }
    ConcatFrom(iov[..], k);
    ghost var was, whole := iov[..], took;
    assert was[k..] == iov[k..];
    took := took + iov[k][..rem];
    iov[k] := iov[k][rem..];
    Cut(was, iov[..], k, rem);
    assert iov[..][k..] == iov[k..];
    assert all == whole + (was[k][..rem] + Concat(iov[k..])) == took + Concat(iov[k..]);
    ok := true;
  }

  /**
   * atomiciov6: `sent` is what the calls took, in order. The vectors are copied
   * and the copy is cut down from the front.
   */
  method Atomiciov<T(0)>(iovMax: nat, vectors: seq<seq<T>>, calls: seq<Call>) returns (r: Result, sent: seq<T>)
    ensures |vectors| > iovMax ==> r == Returned(0, Einval)
    ensures |vectors| <= iovMax && vectors != [] && vectors[0] == [] ==> r == Returned(0, Ok)
    ensures |vectors| <= iovMax && (vectors == [] || vectors[0] != []) ==> r == Flat(0, |Concat(vectors)|, calls)
    ensures |vectors| <= iovMax && r == Returned(r.pos, Ok) ==>
              (r.pos == |Concat(vectors)| <==> vectors == [] || vectors[0] != [] || Concat(vectors) == [])
    ensures sent <= Concat(vectors)
    ensures r.Waiting? || r.errno !in {Other, Efault} ==> |sent| == r.pos
  {
    hide Concat;
    sent := [];
    if |vectors| > iovMax {
      return Returned(0, Einval), [];
    }
    var iovcnt := |vectors|;
    var iov := new seq<T>[iovcnt](i requires 0 <= i < iovcnt => vectors[i]);
    ghost var all := Concat(vectors);
    assert iov[0..] == vectors;
    var k, i := 0, 0;
    if iovcnt > 0 && |iov[0]| == 0 {
      return Returned(0, Ok), [];
    }
    while k < iovcnt && |iov[k]| > 0
      invariant 0 <= k <= iovcnt && 0 <= i <= |calls|
      invariant sent + Concat(iov[k..]) == all
      invariant k < iovcnt ==> iov[k] != []
      invariant Flat(0, |all|, calls) == Flat(|sent|, |Concat(iov[k..])|, calls[i..])
      decreases |calls| - i
      modifies iov
    {
      Front(iov[..], k);
      if i == |calls| {
        return Waiting(|sent|), sent;
      }
      var res := calls[i];
      assert calls[i..][0] == res && calls[i..][1..] == calls[i + 1..];
      i := i + 1;
      match res
      case Interrupted(stop) =>
        if stop {
          return Returned(|sent|, Eintr), sent;
        }
      case Again =>
      case Failed =>
        return Returned(0, Other), sent;
      case Closed =>
        return Returned(|sent|, Epipe), sent;
      case Moved(n, stop) =>
        if n == 0 {
          return Returned(|sent|, Epipe), sent;
        }
        var ok, took;
        ok, k, took := Consume(iov, k, n);
        sent := sent + took;
        if !ok {
          return Returned(0, Efault), sent;
        }
        if stop {
          return Returned(|sent|, Eintr), sent;
        }
    }
    if k == iovcnt {
      NoVectors<T>();
      assert iov[k..] == [];
    }
    r := Returned(|sent|, Ok);
  }

  lemma NoVectors<T>()
    ensures Concat<T>([]) == []
  {
  }

  lemma Cut<T>(was: seq<seq<T>>, now: seq<seq<T>>, k: nat, rem: nat)
    requires k < |was| && rem <= |was[k]| && now == was[k := was[k][rem..]]
    ensures Concat(was[k..]) == was[k][..rem] + Concat(now[k..])
  {
    hide Concat;
    ConcatFrom(was, k);
    ConcatFrom(now, k);
    assert now[k + 1..] == was[k + 1..];
    assert was[k] == was[k][..rem] + was[k][rem..];
  }
}
