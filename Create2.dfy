/** The deterministic pool address helper of the test utilities: it orders
    the two token address strings case-insensitively and assembles the
    CREATE2 (EIP-1014) hash input from the factory address, the salt (the
    hash of the ABI-encoded ordered pair and fee) and the hash of the pool's
    bytecode. Keccak-256 is kept abstract: a digest is the symbolic term of
    what was hashed, so two digests are equal exactly when their inputs are
    (the hash is taken to be collision-free). Hex data is case-insensitive,
    so every hex string enters the hash input lower-cased. */
module Create2 {
  import opened Common
  import FactoryCore

  // ---------------------------------------------------------------------
  // Case folding and JavaScript string order
  // ---------------------------------------------------------------------

  function ToLowerChar(c: char): (l: char)
    ensures 'A' <= c <= 'Z' ==> l as int == c as int + 32
    ensures !('A' <= c <= 'Z') ==> l == c
  {
    if 'A' <= c <= 'Z' then (c as int + 32) as char else c
  }

  /** `s.toLowerCase()` on ASCII text. */
  function ToLower(s: string): (l: string)
    ensures |l| == |s|
    ensures forall i :: 0 <= i < |s| ==> l[i] == ToLowerChar(s[i])
  {
    if s == [] then [] else [ToLowerChar(s[0])] + ToLower(s[1..])
  }

  /** JavaScript's `a < b` on strings: the first differing character
      decides, and a proper prefix comes first. */
  predicate LexLess(a: string, b: string)
  {
    if a == [] then b != []
    else if b == [] then false
    else if a[0] != b[0] then a[0] < b[0]
    else LexLess(a[1..], b[1..])
  }

  lemma {:induction false} LexLessIrreflexive(a: string)
    ensures !LexLess(a, a)
  {
    if a != [] {
      LexLessIrreflexive(a[1..]);
    }
  }

  lemma {:induction false} LexLessAsymmetric(a: string, b: string)
    ensures !(LexLess(a, b) && LexLess(b, a))
  {
    if a != [] && b != [] && a[0] == b[0] {
      LexLessAsymmetric(a[1..], b[1..]);
    }
  }

  /** Any two different strings are ordered one way or the other. */
  lemma {:induction false} LexLessTotal(a: string, b: string)
    ensures a == b || LexLess(a, b) || LexLess(b, a)
  {
    if a != [] && b != [] && a[0] == b[0] {
      LexLessTotal(a[1..], b[1..]);
      if a[1..] == b[1..] {
        assert a == [a[0]] + a[1..] && b == [b[0]] + b[1..];
      }
    }
  }

  lemma {:induction false} LexLessTransitive(a: string, b: string, c: string)
    requires LexLess(a, b) && LexLess(b, c)
    ensures LexLess(a, c)
  {
    if a != [] && a[0] == b[0] && b[0] == c[0] {
      LexLessTransitive(a[1..], b[1..], c[1..]);
    }
  }

  // ---------------------------------------------------------------------
  // Token ordering
  // ---------------------------------------------------------------------

  /** `[token0, token1]` of getCreate2Address: the pair in case-insensitive
      ascending order; when the two differ only in letter case the second
      argument comes first. */
  function SortPair(tokenA: string, tokenB: string): (pair: (string, string))
    ensures pair == (tokenA, tokenB) || pair == (tokenB, tokenA)
    ensures !LexLess(ToLower(pair.1), ToLower(pair.0))
    ensures ToLower(tokenA) != ToLower(tokenB) ==> LexLess(ToLower(pair.0), ToLower(pair.1))
  {
    LexLessAsymmetric(ToLower(tokenA), ToLower(tokenB));
    LexLessTotal(ToLower(tokenA), ToLower(tokenB));
    if LexLess(ToLower(tokenA), ToLower(tokenB)) then (tokenA, tokenB) else (tokenB, tokenA)
  }

  // ---------------------------------------------------------------------
  // The CREATE2 hash input
  // ---------------------------------------------------------------------

  /** What is hashed for the salt (the ABI encoding of two addresses and a
      uint24) and for the init code (the pool bytecode). */
  datatype Preimage =
    | AbiEncodedPoolKey(token0: string, token1: string, fee: int)
    | Bytecode(code: string)

  /** Keccak-256 of a preimage, kept symbolic. */
  datatype Digest = Keccak256(preimage: Preimage)

  /** The CREATE2 input `0xff ++ factory ++ salt ++ keccak256(initCode)`;
      the pool address is the last 20 bytes of its Keccak-256, which is not
      modelled. */
  datatype Create2Input = Create2Input(factory: string, salt: Digest, initCodeHash: Digest)

  /** `getCreate2Address(factoryAddress, [tokenA, tokenB], fee, bytecode)`
      up to the final hash. */
  function GetCreate2Address(factoryAddress: string, tokenA: string, tokenB: string, fee: int,
                             bytecode: string): (input: Create2Input)
    ensures input.factory == ToLower(factoryAddress)
    ensures input.initCodeHash == Keccak256(Bytecode(ToLower(bytecode)))
    ensures input.salt.preimage.AbiEncodedPoolKey? && input.salt.preimage.fee == fee
    ensures !LexLess(input.salt.preimage.token1, input.salt.preimage.token0)
    ensures (input.salt.preimage.token0 == ToLower(tokenA) && input.salt.preimage.token1 == ToLower(tokenB))
         || (input.salt.preimage.token0 == ToLower(tokenB) && input.salt.preimage.token1 == ToLower(tokenA))
  {
    var pair := SortPair(tokenA, tokenB);
    var salt := Keccak256(AbiEncodedPoolKey(ToLower(pair.0), ToLower(pair.1), fee));
    Create2Input(ToLower(factoryAddress), salt, Keccak256(Bytecode(ToLower(bytecode))))
  }

  /** The salt preimage written on lower-cased tokens: the pair in
      ascending order. */
  function SortedPoolKey(la: string, lb: string, fee: int): (p: Preimage)
    ensures p.AbiEncodedPoolKey? && p.fee == fee
  {
    if LexLess(la, lb) then AbiEncodedPoolKey(la, lb, fee) else AbiEncodedPoolKey(lb, la, fee)
  }

  /** The hash input assembled from already lower-cased parts. */
  function Assemble(lf: string, la: string, lb: string, fee: int, lc: string): Create2Input
  {
    Create2Input(lf, Keccak256(SortedPoolKey(la, lb, fee)), Keccak256(Bytecode(lc)))
  }

  /** The hash input depends on the tokens only through their lower-cased
      forms. */
  lemma Create2OfLowered(factoryAddress: string, tokenA: string, tokenB: string, fee: int, bytecode: string)
    ensures GetCreate2Address(factoryAddress, tokenA, tokenB, fee, bytecode)
         == Assemble(ToLower(factoryAddress), ToLower(tokenA), ToLower(tokenB), fee, ToLower(bytecode))
  {
  }

  /** Two salt preimages coincide exactly when they hold the same fee and
      the same pair in either order. */
  lemma SortedPoolKeyInjective(la: string, lb: string, fee: int, la': string, lb': string, fee': int)
    ensures SortedPoolKey(la, lb, fee) == SortedPoolKey(la', lb', fee')
        <==> fee == fee' && ((la == la' && lb == lb') || (la == lb' && lb == la'))
  {
    LexLessAsymmetric(la, lb);
    LexLessTotal(la, lb);
    LexLessAsymmetric(la', lb');
    LexLessTotal(la', lb');
    LexLessIrreflexive(la);
    LexLessIrreflexive(la');
  }

  /** The address does not depend on the order the tokens are listed in. */
  lemma Create2OrderIndependent(factoryAddress: string, tokenA: string, tokenB: string, fee: int,
                                bytecode: string)
    ensures GetCreate2Address(factoryAddress, tokenA, tokenB, fee, bytecode)
         == GetCreate2Address(factoryAddress, tokenB, tokenA, fee, bytecode)
  {
    Create2OfLowered(factoryAddress, tokenA, tokenB, fee, bytecode);
    Create2OfLowered(factoryAddress, tokenB, tokenA, fee, bytecode);
    SortedPoolKeyInjective(ToLower(tokenA), ToLower(tokenB), fee, ToLower(tokenB), ToLower(tokenA), fee);
  }

  /** The hash input assembled from lower-cased parts determines those
      parts, the token pair up to order. */
  lemma LoweredInputInjective(lf: string, la: string, lb: string, fee: int, lc: string,
                              lf': string, la': string, lb': string, fee': int, lc': string)
    ensures Assemble(lf, la, lb, fee, lc) == Assemble(lf', la', lb', fee', lc')
        <==> && lf == lf' && fee == fee' && lc == lc'
             && ((la == la' && lb == lb') || (la == lb' && lb == la'))
  {
    SortedPoolKeyInjective(la, lb, fee, la', lb', fee');
  }

  /** Two hash inputs coincide exactly when they come from the same factory,
      the same pair of tokens in either order, the same fee and the same
      bytecode, letter case aside: the address is a function of these alone,
      and distinct pools get distinct hash inputs. */
  lemma {:induction false} Create2InputInjective(factory: string, tokenA: string, tokenB: string, fee: int, code: string,
                              factory': string, tokenA': string, tokenB': string, fee': int, code': string)
    ensures GetCreate2Address(factory, tokenA, tokenB, fee, code)
         == GetCreate2Address(factory', tokenA', tokenB', fee', code')
        <==> && ToLower(factory) == ToLower(factory')
             && fee == fee'
             && ToLower(code) == ToLower(code')
             && (|| (ToLower(tokenA) == ToLower(tokenA') && ToLower(tokenB) == ToLower(tokenB'))
                 || (ToLower(tokenA) == ToLower(tokenB') && ToLower(tokenB) == ToLower(tokenA')))
  {
    Create2OfLowered(factory, tokenA, tokenB, fee, code);
    Create2OfLowered(factory', tokenA', tokenB', fee', code');
    LoweredInputInjective(ToLower(factory), ToLower(tokenA), ToLower(tokenB), fee, ToLower(code),
                          ToLower(factory'), ToLower(tokenA'), ToLower(tokenB'), fee', ToLower(code'));
  }

  // ---------------------------------------------------------------------
  // Agreement with the on-chain numeric order of addresses
  // ---------------------------------------------------------------------

  predicate IsHexDigit(c: char)
  {
    '0' <= c <= '9' || 'a' <= c <= 'f' || 'A' <= c <= 'F'
  }

  /** The value of a hex digit, in either letter case. */
  function DigitValue(c: char): (v: nat)
    requires IsHexDigit(c)
    ensures v < 16
  {
    if '0' <= c <= '9' then c as int - '0' as int
    else if 'a' <= c <= 'f' then c as int - 'a' as int + 10
    else c as int - 'A' as int + 10
  }

  /** Lower-casing a digit keeps its value; among lower-case digits the
      character order is the order of values. */
  lemma DigitValueFacts(c: char, d: char)
    requires IsHexDigit(c) && IsHexDigit(d)
    ensures IsHexDigit(ToLowerChar(c)) && DigitValue(ToLowerChar(c)) == DigitValue(c)
    ensures ('0' <= c <= '9' || 'a' <= c <= 'f') && ('0' <= d <= '9' || 'a' <= d <= 'f') ==>
              (c < d <==> DigitValue(c) < DigitValue(d))
  {
  }

  function Pow16(n: nat): (p: nat)
    ensures p > 0
  {
    if n == 0 then 1 else 16 * Pow16(n - 1)
  }

  predicate AllHexDigits(s: string)
  {
    forall i :: 0 <= i < |s| ==> IsHexDigit(s[i])
  }

  /** The value of a string of hex digits, most significant first. */
  function HexValue(s: string): nat
    requires AllHexDigits(s)
  {
    if s == [] then 0 else DigitValue(s[0]) * Pow16(|s| - 1) + HexValue(s[1..])
  }

  lemma MulLeft(x: nat, y: nat, p: nat)
    requires x <= y
    ensures x * p <= y * p
  {
    assert y * p - x * p == (y - x) * p;
  }

  /** `n` hex digits denote a number below 16^n. */
  lemma {:induction false} HexValueBound(s: string)
    requires AllHexDigits(s)
    ensures HexValue(s) < Pow16(|s|)
  {
    if s != [] {
      var p := Pow16(|s| - 1);
      HexValueBound(s[1..]);
      MulLeft(DigitValue(s[0]), 15, p);
      assert Pow16(|s|) == 16 * p;
    }
  }

  predicate IsLowerHex(s: string)
  {
    forall i :: 0 <= i < |s| ==> '0' <= s[i] <= '9' || 'a' <= s[i] <= 'f'
  }

  /** The leading digit dominates: a smaller leading digit means a smaller
      value, whatever follows. */
  lemma LeadingDigitDominates(ds: nat, rs: nat, dt: nat, rt: nat, p: nat)
    requires ds < dt && rs < p
    ensures ds * p + rs < dt * p + rt
  {
    MulLeft(ds + 1, dt, p);
    assert (ds + 1) * p == ds * p + p;
  }

  /** A nonempty string of hex digits: its leading digit, weighted by its
      place, plus the value of the rest. */
  lemma HexValueCons(s: string)
    requires s != [] && AllHexDigits(s)
    ensures IsHexDigit(s[0]) && AllHexDigits(s[1..])
    ensures HexValue(s) == DigitValue(s[0]) * Pow16(|s| - 1) + HexValue(s[1..])
  {
  }

  /** Two lower-case hex strings of equal length whose first digits differ
      compare, as numbers, like those digits. */
  lemma LeadingDigitDecides(s: string, t: string)
    requires |s| == |t| && s != [] && IsLowerHex(s) && IsLowerHex(t) && s[0] != t[0]
    ensures AllHexDigits(s) && AllHexDigits(t)
    ensures s[0] < t[0] <==> HexValue(s) < HexValue(t)
  {
    HexValueCons(s);
    HexValueCons(t);
    var p := Pow16(|s| - 1);
    var ds, dt := DigitValue(s[0]), DigitValue(t[0]);
    DigitValueFacts(s[0], t[0]);
    if ds < dt {
      HexValueBound(s[1..]);
      LeadingDigitDominates(ds, HexValue(s[1..]), dt, HexValue(t[1..]), p);
    } else {
      HexValueBound(t[1..]);
      LeadingDigitDominates(dt, HexValue(t[1..]), ds, HexValue(s[1..]), p);
    }
  }

  /** On lower-case hex strings of equal length, string order is numeric
      order. */
  lemma {:induction false} LexLessIsNumericOrder(s: string, t: string)
    requires |s| == |t| && IsLowerHex(s) && IsLowerHex(t)
    ensures AllHexDigits(s) && AllHexDigits(t)
    ensures LexLess(s, t) <==> HexValue(s) < HexValue(t)
  {
    if s != [] {
      if s[0] == t[0] {
        assert IsLowerHex(s[1..]) && IsLowerHex(t[1..]);
        LexLessIsNumericOrder(s[1..], t[1..]);
        HexValueCons(s);
        HexValueCons(t);
      } else {
        LeadingDigitDecides(s, t);
      }
    }
  }

  /** A checksummed or plain address string: `0x` and 40 hex digits. */
  predicate IsAddressString(s: string)
  {
    |s| == 42 && s[0] == '0' && s[1] == 'x' && forall i :: 2 <= i < 42 ==> IsHexDigit(s[i])
  }

  lemma {:induction false} Pow16Add(m: nat, n: nat)
    ensures Pow16(m + n) == Pow16(m) * Pow16(n)
  {
    if m > 0 {
      Pow16Add(m - 1, n);
      assert Pow16(m + n) == 16 * Pow16(m - 1 + n);
    }
  }

  /** 40 hex digits make 160 bits. */
  lemma Pow16Of40()
    ensures Pow16(40) == ADDRESS_LIMIT
  {
    assert Pow16(5) == 0x10_0000;
    Pow16Add(5, 5);
    Pow16Add(10, 10);
    Pow16Add(20, 20);
  }

  /** The 160-bit number an address string denotes. */
  function AddressValue(s: string): (a: Address)
    requires IsAddressString(s)
  {
    assert AllHexDigits(s[2..]);
    HexValueBound(s[2..]);
    Pow16Of40();
    HexValue(s[2..])
  }

  /** The helper's case-insensitive string order agrees with the numeric
      order the factory sorts by, so the helper and the factory pick the
      same token0. */
  lemma SortPairMatchesFactory(tokenA: string, tokenB: string)
    requires IsAddressString(tokenA) && IsAddressString(tokenB)
    ensures LexLess(ToLower(tokenA), ToLower(tokenB)) <==> AddressValue(tokenA) < AddressValue(tokenB)
    ensures var pair := SortPair(tokenA, tokenB);
            var sorted := FactoryCore.SortTokens(AddressValue(tokenA), AddressValue(tokenB));
            AddressValue(pair.0) == sorted.0 && AddressValue(pair.1) == sorted.1
  {
    var la, lb := ToLower(tokenA), ToLower(tokenB);
    assert la == ToLower("0x") + ToLower(tokenA[2..]) by {
      assert tokenA == "0x" + tokenA[2..];
    }
    assert lb == ToLower("0x") + ToLower(tokenB[2..]) by {
      assert tokenB == "0x" + tokenB[2..];
    }
    assert LexLess(la, lb) <==> LexLess(ToLower(tokenA[2..]), ToLower(tokenB[2..])) by {
      assert la[0] == lb[0] && la[1] == lb[1];
      assert la[1..][1..] == ToLower(tokenA[2..]) && lb[1..][1..] == ToLower(tokenB[2..]);
    }
    LowerHexValue(tokenA[2..]);
    LowerHexValue(tokenB[2..]);
    LexLessIsNumericOrder(ToLower(tokenA[2..]), ToLower(tokenB[2..]));
  }

  /** Lower-casing a hex string keeps its value. */
  lemma {:induction false} LowerHexValue(s: string)
    requires AllHexDigits(s)
    ensures IsLowerHex(ToLower(s))
    ensures AllHexDigits(ToLower(s))
    ensures HexValue(ToLower(s)) == HexValue(s)
  {
    if s != [] {
      LowerHexValue(s[1..]);
      assert ToLower(s)[1..] == ToLower(s[1..]);
      DigitValueFacts(s[0], s[0]);
    }
  }
}
