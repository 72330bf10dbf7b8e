/** The signer that moves on to the next key with every signature: a shared machine-word counter
    picks the key, and the public key is read separately from the signing step. */
module Signer {
  import opened Types

  datatype SecretKey = SecretKey(seed: seq<nat>)

  /** Key derivation is abstract: distinct secret keys have distinct public keys. */
  function PublicOf(sk: SecretKey): PublicKey { PublicKey(sk.seed) }

  datatype InMemorySigner = InMemorySigner(account: AccountId, secret: SecretKey)

  /** Signatures are abstract: one records which key made it over what. */
  datatype Signature = Signature(madeBy: PublicKey, data: Bytes)

  // ----- Construction -----

  function SignersOf(entries: seq<(AccountId, SecretKey)>): Result<seq<InMemorySigner>, Error> {
    if entries == [] then Err(InvalidArgs("must have at least one entry"))
    else if exists i :: 0 <= i < |entries| && entries[i].0 != entries[0].0 then
      Err(InvalidArgs("provided account ids are not all the same"))
    else Ok(seq(|entries|, i requires 0 <= i < |entries| => InMemorySigner(entries[0].0, entries[i].1)))
  }

  /** Construction succeeds exactly for a non-empty list of one and the same account; the keys keep
      their order, and the signer's account is that account whatever the counter says. */
  lemma ConstructionKeepsAccount(entries: seq<(AccountId, SecretKey)>, counter: nat, i: nat)
    ensures SignersOf(entries).Ok? <==>
      entries != [] && forall j, k :: 0 <= j < k < |entries| ==> entries[j].0 == entries[k].0
    ensures var r := SignersOf(entries); r.Ok? ==>
      && |r.value| == |entries| > 0
      && r.value[counter % |r.value|].account == entries[0].0
      && (i < |entries| ==> r.value[i] == InMemorySigner(entries[i].0, entries[i].1))
    ensures entries == [] ==> SignersOf(entries) == Err(InvalidArgs("must have at least one entry"))
    ensures entries != [] && SignersOf(entries).Err? ==>
      SignersOf(entries).error == InvalidArgs("provided account ids are not all the same")
  {
    if entries != [] {
      if forall j, k :: 0 <= j < k < |entries| ==> entries[j].0 == entries[k].0 {
        assert forall j :: 0 <= j < |entries| ==> entries[j].0 == entries[0].0;
      }
    }
  }

  /** The next value of the counter: it wraps at the machine word. */
  function Rotated(counter: nat, word: nat): nat
    requires counter < word
    ensures Rotated(counter, word) < word
  {
    if counter + 1 == word then 0 else counter + 1
  }

  class KeyRotatingSigner {
    const signers: seq<InMemorySigner>
    const word: nat
    var counter: nat

    /** An empty list leaves the modulus of the rotation at zero; every use of it panics. */
    ghost predicate Valid()
      reads this
    {
      signers != [] && counter < word
    }

    constructor (signers: seq<InMemorySigner>, word: nat)
      requires signers != [] && word > 0
      ensures Valid() && this.signers == signers && this.word == word && counter == 0
    {
      this.signers := signers;
      this.word := word;
      counter := 0;
    }

    static method TryFromIter(entries: seq<(AccountId, SecretKey)>, word: nat)
      returns (r: Result<KeyRotatingSigner, Error>)
      requires word > 0
      ensures r.Ok? <==> SignersOf(entries).Ok?
      ensures r.Ok? ==> r.value.Valid() && fresh(r.value)
      ensures r.Ok? ==> r.value.signers == SignersOf(entries).value && r.value.counter == 0
      ensures r.Err? ==> r.error == SignersOf(entries).error
    {
      match SignersOf(entries)
      case Err(e) => r := Err(e);
      case Ok(signers) =>
        var signer := new KeyRotatingSigner(signers, word);
        r := Ok(signer);
    }

    function Current(): InMemorySigner
      requires Valid()
      reads this
    {
      signers[counter % |signers|]
    }

    function PublicKey(): PublicKey
      requires Valid()
      reads this
    {
      PublicOf(Current().secret)
    }

    function Account(): AccountId
      requires Valid()
      reads this
    {
      Current().account
    }

    method FetchAndRotate() returns (signer: InMemorySigner)
      requires Valid()
      modifies this
      ensures Valid() && counter == Rotated(old(counter), word)
      ensures signer == old(Current()) == signers[old(counter) % |signers|]
    {
      var idx := counter;
      counter := Rotated(counter, word);
      signer := signers[idx % |signers|];
    }

    method Sign(data: Bytes) returns (signature: Signature)
      requires Valid()
      modifies this
      ensures Valid() && counter == Rotated(old(counter), word)
      ensures signature == Signature(old(PublicKey()), data)
      ensures signature.madeBy == PublicOf(signers[old(counter) % |signers|].secret) && signature.data == data
    {
      var signer := FetchAndRotate();
      signature := Signature(PublicOf(signer.secret), data);
    }
  }

  // ----- Rotation -----

  function Rotations(counter: nat, word: nat, m: nat): (c: nat)
    requires counter < word
    ensures c < word
    decreases m
  {
    if m == 0 then counter else Rotations(Rotated(counter, word), word, m - 1)
  }

  lemma Small(x: nat, n: nat)
    requires x < n
    ensures x / n == 0 && x % n == x
  {
  }

  lemma MulGap(a: int, q: int, n: nat)
    requires a < q
    ensures a * n + n <= q * n
  {
    var d: nat := q - a - 1;
    assert q * n == (a + 1 + d) * n == a * n + n + d * n;
  }

  lemma Quotient(x: int, n: nat, q: int, r: nat)
    requires r < n && x == q * n + r
    ensures x / n == q && x % n == r
  {
    var a := x / n;
    assert x == a * n + x % n;
    if a < q { MulGap(a, q, n); }
    if q < a { MulGap(q, a, n); }
  }

  lemma ModShift(x: int, n: nat, q: int)
    requires n > 0
    ensures (x + q * n) % n == x % n && (x + q * n) / n == x / n + q
  {
    assert x == (x / n) * n + x % n;
    assert x + q * n == (x / n + q) * n + x % n;
    Quotient(x + q * n, n, x / n + q, x % n);
  }

  /** Wrapping at the word is counting modulo the word. */
  lemma {:induction false} RotationsClosed(counter: nat, word: nat, m: nat)
    requires counter < word
    ensures Rotations(counter, word, m) == (counter + m) % word
    decreases m
  {
    if m == 0 {
      Small(counter, word);
    } else {
      RotationsClosed(Rotated(counter, word), word, m - 1);
      if counter + 1 == word { ModShift(m - 1, word, 1); }
    }
  }

  /** How often position `p` of `n` is picked by `m` consecutive signatures. */
  function Uses(counter: nat, word: nat, n: nat, m: nat, p: nat): nat
    requires counter < word && n > 0
    decreases m
  {
    if m == 0 then 0
    else (if counter % n == p then 1 else 0) + Uses(Rotated(counter, word), word, n, m - 1, p)
  }

  /** How many of the numbers below `x` leave the remainder `p`. */
  function Below(x: nat, n: nat, p: nat): nat
    requires p < n
  {
    (x + (n - 1 - p)) / n
  }

  lemma Distribute(a: int, b: int, n: int)
    ensures (a + b) * n == a * n + b * n
  {
  }

  /** Quotient and remainder of a sum. */
  lemma SumQuotient(x: nat, d: nat, n: nat)
    requires n > 0
    ensures var r := x % n + d % n;
      if r < n then (x + d) / n == x / n + d / n && (x + d) % n == r
      else (x + d) / n == x / n + d / n + 1 && (x + d) % n == r - n
  {
    var q, a := x / n, d / n;
    Distribute(q, a, n);
    var r := x % n + d % n;
    if r < n {
      Quotient(x + d, n, q + a, r);
    } else {
      Distribute(q + a, 1, n);
      Quotient(x + d, n, q + a + 1, r - n);
    }
  }

  lemma BelowStep(x: nat, n: nat, p: nat)
    requires p < n
    ensures Below(x + 1, n, p) == Below(x, n, p) + (if x % n == p then 1 else 0)
  {
    Small(n - 1 - p, n);
    SumQuotient(x, n - 1 - p, n);
    if p == 0 {
      Distribute(x / n, 1, n);
      Quotient(x + n, n, x / n + 1, x % n);
    } else {
      Small(n - p, n);
      SumQuotient(x, n - p, n);
    }
  }

  lemma {:induction false} UsesBeforeWrap(counter: nat, word: nat, n: nat, m: nat, p: nat)
    requires p < n && counter < word && counter + m <= word
    ensures Uses(counter, word, n, m, p) == Below(counter + m, n, p) - Below(counter, n, p)
    decreases m
  {
    if m > 0 {
      BelowStep(counter, n, p);
      if m > 1 { UsesBeforeWrap(counter + 1, word, n, m - 1, p); }
    }
  }

  lemma Ceiling(m: nat, n: nat)
    requires n > 0
    ensures (m + n - 1) / n == m / n + (if m % n == 0 then 0 else 1)
  {
    Small(n - 1, n);
    SumQuotient(m, n - 1, n);
  }

  lemma BelowSpread(x: nat, n: nat, m: nat, p: nat)
    requires p < n
    ensures m / n <= Below(x + m, n, p) - Below(x, n, p) <= (m + n - 1) / n
  {
    SumQuotient(x + (n - 1 - p), m, n);
    Ceiling(m, n);
  }

  /** Over any window of `m` signatures without a wrap of the counter, every position is picked
      floor(m/n) or ceil(m/n) times. */
  lemma Fair(counter: nat, word: nat, n: nat, m: nat, p: nat)
    requires p < n && counter < word && counter + m <= word
    ensures m / n <= Uses(counter, word, n, m, p) <= (m + n - 1) / n
    ensures (m + n - 1) / n <= m / n + 1
  {
    UsesBeforeWrap(counter, word, n, m, p);
    BelowSpread(counter, n, m, p);
    Ceiling(m, n);
  }

  lemma {:induction false} UsesSplit(counter: nat, word: nat, n: nat, a: nat, b: nat, p: nat)
    requires counter < word && n > 0
    ensures Uses(counter, word, n, a + b, p) ==
      Uses(counter, word, n, a, p) + Uses(Rotations(counter, word, a), word, n, b, p)
    decreases a
  {
    if a > 0 {
      UsesSplit(Rotated(counter, word), word, n, a - 1, b, p);
    }
  }

  /** How often the counter wraps before the last of `m` signatures. */
  function Wraps(counter: nat, word: nat, m: nat): nat
    requires word > 0
  {
    if m == 0 then 0 else (counter + m - 1) / word
  }

  /** Each wrap of the counter costs at most one more use of difference between two positions: at
      most 2 apart with one wrap. */
  lemma {:induction false} FairAcrossWraps(counter: nat, word: nat, n: nat, m: nat, p: nat, q: nat)
    requires p < n && q < n && counter < word
    ensures Uses(counter, word, n, m, p) <= Uses(counter, word, n, m, q) + 1 + Wraps(counter, word, m)
    decreases m
  {
    if counter + m <= word {
      Fair(counter, word, n, m, p);
      Fair(counter, word, n, m, q);
    } else {
      var a := word - counter;
      UsesSplit(counter, word, n, a, m - a, p);
      UsesSplit(counter, word, n, a, m - a, q);
      RotationsClosed(counter, word, a);
      Quotient(word, word, 1, 0);
      Fair(counter, word, n, a, p);
      Fair(counter, word, n, a, q);
      FairAcrossWraps(0, word, n, m - a, p, q);
      ModShift(counter + m - 1 - word, word, 1);
    }
  }

  /** When the number of keys divides the word, a wrap goes unnoticed: any window is fair. */
  lemma {:induction false} WrapUnnoticed(counter: nat, word: nat, n: nat, k: nat, m: nat, p: nat)
    requires p < n && word == k * n && counter < word
    ensures Uses(counter, word, n, m, p) == Below(counter + m, n, p) - Below(counter, n, p)
    ensures m / n <= Uses(counter, word, n, m, p) <= (m + n - 1) / n
    decreases m
  {
    BelowSpread(counter, n, m, p);
    if m > 0 {
      BelowStep(counter, n, p);
      if counter + 1 < word {
        WrapUnnoticed(counter + 1, word, n, k, m - 1, p);
      } else {
        WrapUnnoticed(0, word, n, k, m - 1, p);
        ModShift(m - 1 + (n - 1 - p), n, k);
        ModShift(n - 1 - p, n, k);
      }
    }
  }

  /** The bound of 2 is met on a 64-bit machine with three keys: the two signatures around the wrap
      use the same key. */
  lemma WrapRepeatsKey(q: nat)
    requires q < 3
    ensures Uses(U64 - 1, U64, 3, 2, 0) == 2 && (q != 0 ==> Uses(U64 - 1, U64, 3, 2, q) == 0)
  {
    assert Rotated(U64 - 1, U64) == 0;
    assert Uses(0, U64, 3, 1, 0) == 1 && (q != 0 ==> Uses(0, U64, 3, 1, q) == 0);
  }

  lemma Exact(word: nat, n: nat)
    requires n > 0 && word % n == 0
    ensures word == word / n * n
  {
  }

  /** Both results about any window together. */
  lemma {:induction false} FairAnyway(counter: nat, word: nat, n: nat, m: nat, p: nat, q: nat)
    requires p < n && q < n && counter < word
    ensures counter + m <= word || word % n == 0 ==> m / n <= Uses(counter, word, n, m, p) <= (m + n - 1) / n
    ensures Uses(counter, word, n, m, p) <= Uses(counter, word, n, m, q) + 1 + Wraps(counter, word, m)
  {
    if counter + m <= word { Fair(counter, word, n, m, p); }
    if word % n == 0 {
      Exact(word, n);
      WrapUnnoticed(counter, word, n, word / n, m, p);
    }
    FairAcrossWraps(counter, word, n, m, p, q);
  }

  // ----- Agreement of the key read and the key that signs -----

  predicate DistinctKeys(keys: seq<PublicKey>) { forall i, j :: 0 <= i < j < |keys| ==> keys[i] != keys[j] }

  /** The key a ring of keys presents after `signs` signatures in all. */
  function KeyAt(keys: seq<PublicKey>, word: nat, signs: nat): PublicKey
    requires keys != [] && word > 0
  {
    keys[signs % word % |keys|]
  }

  lemma SameRemainder(x: nat, d: nat, n: nat)
    requires n > 0
    ensures (x + d) % n == x % n <==> d % n == 0
  {
    SumQuotient(x, d, n);
  }

  /** A key read after `mark` signatures is the one that signs after `signs` of them exactly when the
      number of signatures in between is a multiple of the number of keys, if the counter has not
      wrapped in between. */
  lemma AgreesIff(keys: seq<PublicKey>, word: nat, mark: nat, signs: nat)
    requires keys != [] && DistinctKeys(keys) && word > 0
    requires mark <= signs && mark / word == signs / word
    ensures KeyAt(keys, word, mark) == KeyAt(keys, word, signs) <==> (signs - mark) % |keys| == 0
  {
    var n := |keys|;
    assert mark == mark / word * word + mark % word && signs == signs / word * word + signs % word;
    assert signs % word == mark % word + (signs - mark);
    SameRemainder(mark % word, signs - mark, n);
  }
}
