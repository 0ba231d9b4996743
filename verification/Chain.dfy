/**
  Transactions of one account and the hash-linked history they form.

  Hashing is symbolic: `Digest` is injective because it is a constructor, and `Foreign` stands for
  every 256-bit value that is not the hash of a transaction (the all-zero hash under the first
  transaction of an account is one of them).
*/
module Chain {
  import opened Wrappers

  type Address = nat
  type InvoiceId = nat

  datatype Hash = Digest(tx: Tx) | Foreign(bits: nat)

  datatype Tx = Tx(
    account: Address,
    lt: nat,
    prevLt: nat,
    prevHash: Hash,
    success: bool,
    inMessage: Message,
    outMessages: seq<Message>)

  /** Kind of a message; `Absent` is the empty kind of a transaction without incoming message. */
  datatype MessageKind = Int | ExtIn | ExtOut | Absent

  datatype Message = Message(
    kind: MessageKind,
    source: Address,
    destination: Option<Address>,
    value: nat,
    extras: seq<(nat, nat)>,
    operation: Operation)

  /** What the decoder recognised in a message body. */
  datatype Operation =
    | Transfer(memo: Memo)
    | JettonNotify(memo: Memo, amount: Option<int>, sender: Option<Address>)
    | OtherOperation

  /** The invoice reference carried by a message: none, undecodable, not a version 7 UUID, or an id. */
  datatype Memo = Unrelated | Undecodable | NotAnId | ForInvoice(id: InvoiceId)

  /** The lt reached by the first `n` transactions of `chain`. */
  function LtAt(chain: seq<Tx>, n: nat): nat
    requires n <= |chain|
  {
    if n == 0 then 0 else chain[n - 1].lt
  }

  /** `hash` is the hash of the transaction at which the first `n` transactions of `chain` end. */
  ghost predicate EndsWith(chain: seq<Tx>, n: nat, hash: Hash)
    requires n <= |chain|
  {
    if n == 0 then hash.Foreign? else hash == Digest(chain[n - 1])
  }

  /** Transaction `i` follows transaction `i - 1`: linked by hash and lt, with a larger lt. */
  ghost predicate Linked(chain: seq<Tx>, account: Address, i: nat)
    requires i < |chain|
  {
    && chain[i].account == account
    && chain[i].prevLt == LtAt(chain, i)
    && chain[i].prevLt < chain[i].lt
    && EndsWith(chain, i, chain[i].prevHash)
  }

  /** A whole account history, oldest first. */
  ghost predicate IsChain(chain: seq<Tx>, account: Address) {
    forall i :: 0 <= i < |chain| ==> Linked(chain, account, i)
  }

  lemma {:induction false} LtIncreases(chain: seq<Tx>, account: Address, m: nat, n: nat)
    requires IsChain(chain, account) && m <= n <= |chain|
    ensures LtAt(chain, m) <= LtAt(chain, n)
    ensures m < n ==> LtAt(chain, m) < LtAt(chain, n)
    decreases n
  {
    if m < n {
      LtIncreases(chain, account, m, n - 1);
      assert Linked(chain, account, n - 1);
    }
  }

  /** An lt identifies its position, so comparing lts compares positions. */
  lemma LtOrdersPositions(chain: seq<Tx>, account: Address, m: nat, n: nat)
    requires IsChain(chain, account) && m <= |chain| && n <= |chain|
    ensures LtAt(chain, m) < LtAt(chain, n) <==> m < n
    ensures LtAt(chain, m) == LtAt(chain, n) <==> m == n
  {
    if m <= n {
      LtIncreases(chain, account, m, n);
    } else {
      LtIncreases(chain, account, n, m);
    }
  }

  /** No transaction occurs twice in a chain. */
  lemma PositionsDistinct(chain: seq<Tx>, account: Address, i: nat, j: nat)
    requires IsChain(chain, account) && i < |chain| && j < |chain|
    ensures chain[i] == chain[j] <==> i == j
  {
    LtOrdersPositions(chain, account, i + 1, j + 1);
  }
}
