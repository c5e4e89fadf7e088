/**
 Base62 aliases: src/utils/hashing/aliasGenerator.ts.

 `Encode` and `Value` say what an alias denotes; the two methods are the loops of the
 source, proved equal to them. The lemmas are what the rest of the service relies on:
 no two identifiers share an alias, aliases order like identifiers, and they stay short.
 */
module Base62 {
  import opened Environment

  const NUMERALS := "0123456789"
  const LOWERCASE := "abcdefghijklmnopqrstuvwxyz"
  const UPPERCASE := "ABCDEFGHIJKLMNOPQRSTUVWXYZ"
  const CHARSET := NUMERALS + LOWERCASE + UPPERCASE

  /** The character that stands for a digit. */
  function DigitChar(d: nat): char
    requires d < 62
  {
    if d < 10 then '0' + d as char
    else if d < 36 then 'a' + (d - 10) as char
    else 'A' + (d - 36) as char
  }

  /** The digit a character stands for, -1 when it stands for none. */
  function DigitOf(c: char): (d: int)
    ensures -1 <= d < 62
    ensures d >= 0 ==> DigitChar(d) == c
  {
    if '0' <= c <= '9' then c as int - '0' as int
    else if 'a' <= c <= 'z' then c as int - 'a' as int + 10
    else if 'A' <= c <= 'Z' then c as int - 'A' as int + 36
    else -1
  }

  lemma DigitRoundTrip(d: nat)
    requires d < 62
    ensures DigitOf(DigitChar(d)) == d
  {
  }

  /** The charset lists the digits in order. */
  lemma CharsetInOrder()
    ensures |CHARSET| == 62
    ensures forall d: nat :: d < 62 ==> CHARSET[d] == DigitChar(d)
  {
    assert forall d: nat :: d < 10 ==> NUMERALS[d] == DigitChar(d);
    assert forall d: nat :: d < 26 ==> LOWERCASE[d] == DigitChar(10 + d);
    assert forall d: nat :: d < 26 ==> UPPERCASE[d] == DigitChar(36 + d);
  }

  /** The canonical alias of an identifier: most significant digit first, no leading zero. */
  function Encode(n: nat): (s: string)
    ensures |s| >= 1
  {
    if n < 62 then [DigitChar(n)] else Encode(n / 62) + [DigitChar(n % 62)]
  }

  predicate IsAlias(s: string) {
    forall i :: 0 <= i < |s| ==> DigitOf(s[i]) >= 0
  }

  /** The number a string of base62 digits denotes. */
  function Value(s: string): nat
    requires IsAlias(s)
  {
    if s == "" then 0 else Value(s[..|s| - 1]) * 62 + DigitOf(s[|s| - 1])
  }

  /** Leading zeros dropped, one kept when nothing else is left. */
  function StripZeros(s: string): string {
    if |s| > 1 && s[0] == '0' then StripZeros(s[1..]) else s
  }

  /** `String.prototype.indexOf` on the charset. */
  method IndexOf(c: char) returns (index: int)
    ensures index == DigitOf(c)
  {
    CharsetInOrder();
    index := 0;
    while index < |CHARSET|
      invariant 0 <= index <= 62
      invariant DigitOf(c) < 0 || DigitOf(c) >= index
    {
      DigitRoundTrip(index);
      if CHARSET[index] == c {
        return;
      }
      index := index + 1;
    }
    index := -1;
  }

  method GenerateAlias(id: int) returns (alias: Result<string>)
    ensures id < 0 ==> alias.Error?
    ensures id >= 0 ==> alias == Ok(Encode(id))
  {
    CharsetInOrder();
    if id < 0 {
      return Error("Invalid input: Identifier must be non-negative.");
    }
    if id == 0 {
      return Ok([CHARSET[0]]);
    }
    var encoded := "";
    var currentId := id;
    while currentId > 0
      invariant 0 <= currentId <= id
      invariant currentId == 0 ==> encoded == Encode(id)
      invariant currentId > 0 ==> Encode(currentId) + encoded == Encode(id)
    {
      var remainder := currentId % 62;
      assert currentId >= 62 ==>
          Encode(currentId / 62) + ([DigitChar(remainder)] + encoded) == Encode(currentId) + encoded;
      encoded := [CHARSET[remainder]] + encoded;
      currentId := currentId / 62;
    }
    return Ok(encoded);
  }

  method DecodeAlias(alias: string) returns (id: Result<nat>)
    ensures IsAlias(alias) ==> id == Ok(Value(alias))
    ensures !IsAlias(alias) ==> id.Error?
  {
    var decoded: nat := 0;
    for i := 0 to |alias|
      invariant IsAlias(alias[..i]) && decoded == Value(alias[..i])
    {
      var index := IndexOf(alias[i]);
      if index == -1 {
        return Error("Invalid character in alias");
      }
      assert alias[..i + 1] == alias[..i] + [alias[i]];
      assert alias[..i + 1][..i] == alias[..i];
      decoded := decoded * 62 + index;
    }
    assert alias[..|alias|] == alias;
    return Ok(decoded);
  }

  /** `generateObfuscatedAlias`: the alias of a shifted identifier. */
  method GenerateObfuscatedAlias(id: int, offset: int) returns (alias: Result<string>)
    ensures alias.Ok? <==> id + offset >= 0
    ensures alias.Ok? ==> IsAlias(alias.value) && Value(alias.value) == id + offset
  {
    alias := GenerateAlias(id + offset);
    if id + offset >= 0 {
      DecodeOfEncode(id + offset);
    }
  }

  lemma {:induction false} DecodeOfEncode(n: nat)
    ensures IsAlias(Encode(n)) && Value(Encode(n)) == n
  {
    if n < 62 {
      assert Encode(n)[..0] == "";
    } else {
      DecodeOfEncode(n / 62);
      var high := Encode(n / 62);
      assert (high + [DigitChar(n % 62)])[..|high|] == high;
    }
  }

  /** Two identifiers with one alias are one identifier. */
  lemma EncodeInjective(m: nat, n: nat)
    requires Encode(m) == Encode(n)
    ensures m == n
  {
    DecodeOfEncode(m);
    DecodeOfEncode(n);
  }

  lemma {:induction false} StripKeepsValue(s: string)
    requires IsAlias(s)
    ensures IsAlias(StripZeros(s)) && Value(StripZeros(s)) == Value(s)
  {
    if |s| > 1 && s[0] == '0' {
      LeadingZero(s);
      StripKeepsValue(s[1..]);
    }
  }

  lemma {:induction false} LeadingZero(s: string)
    requires |s| >= 1 && IsAlias(s) && s[0] == '0'
    ensures Value(s[1..]) == Value(s)
  {
    if |s| == 1 {
      assert s[..0] == "";
    } else {
      var front := s[..|s| - 1];
      LeadingZero(front);
      assert s[1..][..|s| - 2] == front[1..];
    }
  }

  lemma DivMod62(q: nat, d: nat)
    requires d < 62
    ensures (q * 62 + d) / 62 == q && (q * 62 + d) % 62 == d
  {
  }

  /** A string with no leading zero is the alias of its value. */
  lemma {:induction false} EncodeOfCanonical(s: string)
    requires |s| >= 1 && IsAlias(s) && (|s| == 1 || s[0] != '0')
    ensures Encode(Value(s)) == s
    ensures |s| > 1 ==> Value(s) >= 62
  {
    var front, d := s[..|s| - 1], DigitOf(s[|s| - 1]);
    if |s| == 1 {
      assert front == "" && Value(s) == d;
    } else {
      assert front[0] == s[0];
      EncodeOfCanonical(front);
      assert Value(front) >= 1 by {
        assert |front| == 1 ==> front[..0] == "" && Value(front) == DigitOf(front[0]);
      }
      DivMod62(Value(front), d);
      assert Encode(Value(s)) == front + [DigitChar(d)];
    }
  }

  lemma {:induction false} StripIsCanonical(s: string)
    requires |s| >= 1
    ensures |StripZeros(s)| >= 1
    ensures |StripZeros(s)| == 1 || StripZeros(s)[0] != '0'
  {
    if |s| > 1 && s[0] == '0' {
      StripIsCanonical(s[1..]);
    }
  }

  /** Encoding undoes decoding up to leading zeros. */
  lemma EncodeOfDecode(s: string)
    requires |s| >= 1 && IsAlias(s)
    ensures Encode(Value(s)) == StripZeros(s)
  {
    StripKeepsValue(s);
    StripIsCanonical(s);
    EncodeOfCanonical(StripZeros(s));
  }

  /** Charset order on strings of one length: the first difference decides. */
  ghost predicate Precedes(a: string, b: string) {
    exists k: nat :: Differs(a, b, k)
  }

  ghost predicate Differs(a: string, b: string, k: nat) {
    k < |a| && k < |b| && a[..k] == b[..k] && DigitOf(a[k]) < DigitOf(b[k])
  }

  ghost predicate Shortlex(a: string, b: string) {
    |a| < |b| || (|a| == |b| && Precedes(a, b))
  }

  lemma ShortlexAsymmetric(a: string, b: string)
    requires Shortlex(a, b)
    ensures !Shortlex(b, a)
  {
  }

  lemma {:induction false} SmallerIsShortlex(m: nat, n: nat)
    requires m < n
    ensures Shortlex(Encode(m), Encode(n))
  {
    var a, b := Encode(m), Encode(n);
    if m < 62 {
      if n < 62 {
        assert Differs(a, b, 0);
      }
    } else {
      var a', b' := Encode(m / 62), Encode(n / 62);
      if m / 62 < n / 62 {
        SmallerIsShortlex(m / 62, n / 62);
        if |a'| == |b'| {
          var k: nat :| Differs(a', b', k);
          assert a[..k] == a'[..k] && b[..k] == b'[..k];
          assert Differs(a, b, k);
        }
      } else {
        assert a[..|a'|] == a' && b[..|a'|] == b';
        assert Differs(a, b, |a'|);
      }
    }
  }

  /** Identifiers compare exactly as their aliases do in shortlex order. */
  lemma OrderPreserved(m: nat, n: nat)
    ensures m < n <==> Shortlex(Encode(m), Encode(n))
  {
    if m < n {
      SmallerIsShortlex(m, n);
    } else if n < m {
      SmallerIsShortlex(n, m);
      ShortlexAsymmetric(Encode(n), Encode(m));
    } else if Shortlex(Encode(m), Encode(n)) {
      ShortlexAsymmetric(Encode(m), Encode(n));
    }
  }

  function Pow62(k: nat): (p: nat)
    ensures p >= 1
  {
    if k == 0 then 1 else 62 * Pow62(k - 1)
  }

  lemma {:induction false} Pow62Monotone(j: nat, k: nat)
    requires j <= k
    ensures Pow62(j) <= Pow62(k)
    decreases k
  {
    if j < k {
      Pow62Monotone(j, k - 1);
    }
  }

  lemma {:induction false} LengthBounds(n: nat)
    requires n >= 1
    ensures Pow62(|Encode(n)| - 1) <= n < Pow62(|Encode(n)|)
  {
    if n >= 62 {
      LengthBounds(n / 62);
      assert |Encode(n)| == |Encode(n / 62)| + 1;
    }
  }

  /** An alias has k characters exactly when the identifier lies in the k-th power band. */
  lemma AliasLength(n: nat, k: nat)
    requires n >= 1 && k >= 1
    ensures |Encode(n)| == k <==> Pow62(k - 1) <= n < Pow62(k)
  {
    LengthBounds(n);
    var l := |Encode(n)|;
    if l < k {
      Pow62Monotone(l, k - 1);
    } else if k < l {
      Pow62Monotone(k, l - 1);
    }
  }

  /** The rule of src/routes/shortener.ts:21 for the path parameter. */
  predicate RouteAccepts(s: string) {
    4 <= |s| <= 64 && forall i :: 0 <= i < |s| ==> IsAlphanumeric(s[i])
  }

  predicate IsAlphanumeric(c: char) {
    '0' <= c <= '9' || 'a' <= c <= 'z' || 'A' <= c <= 'Z'
  }

  /** It accepts exactly the texts of four to 64 characters of the charset. */
  lemma RouteAcceptsExactly(s: string)
    ensures RouteAccepts(s) <==> (4 <= |s| <= 64 && forall i :: 0 <= i < |s| ==> s[i] in CHARSET)
  {
    hide CHARSET;
    forall i | 0 <= i < |s|
      ensures IsAlphanumeric(s[i]) <==> s[i] in CHARSET
    {
      CharsetExactly(s[i]);
    }
  }

  lemma CharsetExactly(c: char)
    ensures IsAlphanumeric(c) <==> c in CHARSET
  {
    CharsetInOrder();
    hide CHARSET;
    if DigitOf(c) >= 0 {
      assert CHARSET[DigitOf(c)] == c;
    } else if c in CHARSET {
      var d :| 0 <= d < |CHARSET| && CHARSET[d] == c;
      DigitRoundTrip(d);
    }
  }

  const BIGINT_LIMIT: nat := 0x8000_0000_0000_0000

  lemma SmallPowers()
    ensures Pow62(3) == 238328
    ensures Pow62(11) == 52036560683837093888
  {
    assert Pow62(1) == 62 && Pow62(2) == 3844 && Pow62(3) == 238328;
    assert Pow62(4) == 14776336 && Pow62(5) == 916132832 && Pow62(6) == 56800235584;
    assert Pow62(7) == 3521614606208 && Pow62(8) == 218340105584896;
    assert Pow62(9) == 13537086546263552 && Pow62(10) == 839299365868340224;
  }

  /** Every identifier a BIGSERIAL column can hold has an alias of at most 11 characters,
      well inside VARCHAR(255), and the redirect route accepts it exactly from 62^3 on. */
  lemma BigserialAliases(n: nat)
    requires 1 <= n < BIGINT_LIMIT
    ensures |Encode(n)| <= 11
    ensures RouteAccepts(Encode(n)) <==> n >= 238328
  {
    SmallPowers();
    LengthBounds(n);
    var l := |Encode(n)|;
    if l > 11 {
      Pow62Monotone(11, l - 1);
    }
    if l >= 4 {
      Pow62Monotone(3, l - 1);
    } else {
      Pow62Monotone(l, 3);
    }
    DecodeOfEncode(n);
  }
}
