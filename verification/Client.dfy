/** Checking the answer of an untrusted lite server (pkg/blockchain/client.go). */
module Client {
  import opened Wrappers
  import opened Chain

  /** The hash that the `i`-th transaction of an answer has to have. */
  function Expected(answer: seq<Tx>, hash: Hash, i: nat): Hash
    requires i <= |answer|
  {
    if i == 0 then hash else answer[i - 1].prevHash
  }

  /** Transaction `i` is the one its successor names, and lies above the depth limit. */
  ghost predicate GoodAt(answer: seq<Tx>, hash: Hash, maxDepthLt: nat, i: nat)
    requires i < |answer|
  {
    Digest(answer[i]) == Expected(answer, hash, i) && maxDepthLt < answer[i].lt
  }

  /** The first `n` transactions are hash-linked from `hash` and lie above the depth limit. */
  ghost predicate LinkedAbove(answer: seq<Tx>, hash: Hash, maxDepthLt: nat, n: nat)
    requires n <= |answer|
  {
    forall i :: 0 <= i < n ==> GoodAt(answer, hash, maxDepthLt, i)
  }

  /** The answer breaks the hash link at `n`, before any transaction reaches the depth limit. */
  ghost predicate BreaksAt(answer: seq<Tx>, hash: Hash, maxDepthLt: nat, n: nat) {
    && n < |answer|
    && LinkedAbove(answer, hash, maxDepthLt, n)
    && Digest(answer[n]) != Expected(answer, hash, n)
  }

  /** The first `n` transactions are used: the answer ends there or reaches the depth limit there. */
  ghost predicate CutsAt(answer: seq<Tx>, hash: Hash, maxDepthLt: nat, n: nat) {
    && n <= |answer|
    && LinkedAbove(answer, hash, maxDepthLt, n)
    && (n < |answer| ==> Digest(answer[n]) == Expected(answer, hash, n) && answer[n].lt <= maxDepthLt)
  }

  /** `txs` is what the hash check keeps of some server answer. */
  ghost predicate Verified(txs: seq<Tx>, startHash: Hash, maxDepthLt: nat) {
    exists answer: seq<Tx> :: txs <= answer && CutsAt(answer, startHash, maxDepthLt, |txs|)
  }

  /** The call failed, or what it brought breaks a hash link. */
  ghost predicate Rejected(answer: Result<seq<Tx>>, hash: Hash, maxDepthLt: nat) {
    answer.Err? || exists n: nat :: BreaksAt(answer.value, hash, maxDepthLt, n)
  }

  /** Nothing of the answer can be used. */
  ghost predicate Useless(answer: Result<seq<Tx>>, hash: Hash, maxDepthLt: nat) {
    Rejected(answer, hash, maxDepthLt) || CutsAt(answer.value, hash, maxDepthLt, 0)
  }

  /** `answer` is whatever the server returned, or `Err` when the call itself failed. */
  method GetTransactions(answer: Result<seq<Tx>>, maxDepthLt: nat, startHash: Hash)
    returns (r: Result<seq<Tx>>)
    ensures r.Err? <==> Rejected(answer, startHash, maxDepthLt)
    ensures r.Ok? ==> answer.Ok? && CutsAt(answer.value, startHash, maxDepthLt, |r.value|) && r.value <= answer.value
    ensures r.Ok? ==> Verified(r.value, startHash, maxDepthLt)
  {
    if answer.Err? {
      return Err;
    }
    var hash := startHash;
    var transactions := [];
    for i := 0 to |answer.value|
      invariant transactions == answer.value[..i]
      invariant hash == Expected(answer.value, startHash, i)
      invariant LinkedAbove(answer.value, startHash, maxDepthLt, i)
    {
      var tx := answer.value[i];
      if Digest(tx) != hash {
        assert BreaksAt(answer.value, startHash, maxDepthLt, i);
        return Err;
      }
      if tx.lt <= maxDepthLt {
        OneEnding(answer.value, startHash, maxDepthLt, i);
        return Ok(transactions);
      }
      hash := tx.prevHash;
      transactions := transactions + [tx];
    }
    OneEnding(answer.value, startHash, maxDepthLt, |answer.value|);
    return Ok(transactions);
  }

  /** An answer that is cut somewhere breaks nowhere, and what precedes the cut has been verified. */
  lemma OneEnding(answer: seq<Tx>, hash: Hash, maxDepthLt: nat, n: nat)
    requires CutsAt(answer, hash, maxDepthLt, n)
    ensures !exists b: nat :: BreaksAt(answer, hash, maxDepthLt, b)
    ensures Verified(answer[..n], hash, maxDepthLt)
  {
    assert answer[..n] <= answer && CutsAt(answer, hash, maxDepthLt, |answer[..n]|);
    forall b: nat
      ensures !BreaksAt(answer, hash, maxDepthLt, b)
    {
      if b < n {
        assert GoodAt(answer, hash, maxDepthLt, b);
      } else if n < |answer| {
        assert !GoodAt(answer, hash, maxDepthLt, n);
      }
    }
  }

  /** There is one place only where an answer is cut. */
  lemma OneCut(answer: seq<Tx>, hash: Hash, maxDepthLt: nat, m: nat, n: nat)
    requires CutsAt(answer, hash, maxDepthLt, m) && CutsAt(answer, hash, maxDepthLt, n)
    ensures m == n
  {
    assert m < n ==> GoodAt(answer, hash, maxDepthLt, m);
    assert n < m ==> GoodAt(answer, hash, maxDepthLt, n);
  }

  /** Read newest first, `txs` is the part of `chain` below position `p`. */
  ghost predicate BackwardSegment(chain: seq<Tx>, p: nat, txs: seq<Tx>)
    requires p <= |chain|
  {
    |txs| <= p && forall i :: 0 <= i < |txs| ==> txs[i] == chain[p - 1 - i]
  }

  /** What passes the check is a consecutive piece of the real history, however the server behaves. */
  lemma {:induction false} AcceptedIsChainSegment(
      chain: seq<Tx>, account: Address, p: nat, answer: seq<Tx>, hash: Hash, maxDepthLt: nat, n: nat)
    requires IsChain(chain, account) && p <= |chain| && EndsWith(chain, p, hash)
    requires n <= |answer| && LinkedAbove(answer, hash, maxDepthLt, n)
    ensures BackwardSegment(chain, p, answer[..n])
    ensures EndsWith(chain, p - n, Expected(answer, hash, n))
    ensures forall i :: p - n <= i < p ==> maxDepthLt < chain[i].lt
    decreases n
  {
    if n > 0 {
      AcceptedIsChainSegment(chain, account, p, answer, hash, maxDepthLt, n - 1);
      assert GoodAt(answer, hash, maxDepthLt, n - 1);
      assert answer[n - 1] == chain[p - n];
      assert Linked(chain, account, p - n);
      forall i | 0 <= i < n
        ensures answer[..n][i] == chain[p - 1 - i]
      {
        if i < n - 1 {
          assert answer[..n - 1][i] == chain[p - 1 - i];
        }
      }
    }
  }

  /** The answers of an honest server, cut or not, are accepted. */
  lemma HonestAnswerAccepted(
      chain: seq<Tx>, account: Address, p: nat, answer: seq<Tx>, hash: Hash, maxDepthLt: nat)
    requires IsChain(chain, account) && 0 < p <= |chain| && EndsWith(chain, p, hash)
    requires BackwardSegment(chain, p, answer)
    ensures !exists b: nat :: BreaksAt(answer, hash, maxDepthLt, b)
  {
    forall b: nat | b < |answer|
      ensures Digest(answer[b]) == Expected(answer, hash, b)
    {
      assert answer[b] == chain[p - 1 - b];
      if b > 0 {
        assert answer[b - 1] == chain[p - 1 - (b - 1)];
        assert Linked(chain, account, p - b);
      }
    }
  }
}
