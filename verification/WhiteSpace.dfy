/**
 White space at the ends of text, as `String.prototype.trim` sees it.
 (src/workers/analyticsFlushWorker.ts:47; src/services/analytics/analyticsService.ts:36;
 src/middleware/security/securityMiddleware.ts:35)
 */
module WhiteSpace {
  /** The white space `String.prototype.trim` removes. */
  predicate IsSpace(c: char) {
    c in {'\t', '\n', '\U{0B}', '\U{0C}', '\r', ' ', '\U{A0}', '\U{1680}', '\U{2028}', '\U{2029}',
          '\U{202F}', '\U{205F}', '\U{3000}', '\U{FEFF}'}
    || '\U{2000}' <= c <= '\U{200A}'
  }

  function TrimLeft(s: string): string {
    if s != "" && IsSpace(s[0]) then TrimLeft(s[1..]) else s
  }

  function TrimRight(s: string): string {
    if s != "" && IsSpace(s[|s| - 1]) then TrimRight(s[..|s| - 1]) else s
  }

  function Trim(s: string): string {
    TrimRight(TrimLeft(s))
  }

  lemma {:induction false} TrimLeftShape(s: string)
    ensures TrimLeft(s) == "" || !IsSpace(TrimLeft(s)[0])
    ensures forall c :: c in TrimLeft(s) ==> c in s
  {
    if s != "" && IsSpace(s[0]) {
      TrimLeftShape(s[1..]);
    }
  }

  lemma {:induction false} TrimRightShape(s: string)
    ensures TrimRight(s) <= s
    ensures TrimRight(s) == "" || !IsSpace(TrimRight(s)[|TrimRight(s)| - 1])
  {
    if s != "" && IsSpace(s[|s| - 1]) {
      TrimRightShape(s[..|s| - 1]);
    }
  }

  /** By code point: the white space and line terminators of ECMA-262. */
  lemma SpacesExactly(c: char)
    ensures IsSpace(c) <==>
              var n := c as int;
              n in {0x9, 0xA, 0xB, 0xC, 0xD, 0x20, 0xA0, 0x1680, 0x2028, 0x2029, 0x202F, 0x205F, 0x3000, 0xFEFF}
              || 0x2000 <= n <= 0x200A
  {
  }

  predicate AllSpace(s: string) {
    forall i :: 0 <= i < |s| ==> IsSpace(s[i])
  }

  /** Empty, or with no white space at either end. */
  predicate Trimmed(s: string) {
    s == "" || (!IsSpace(s[0]) && !IsSpace(s[|s| - 1]))
  }

  lemma {:induction false} TrimRightExactly(s: string, right: string)
    requires AllSpace(right) && (s == "" || !IsSpace(s[|s| - 1]))
    ensures TrimRight(s + right) == s
  {
    hide IsSpace;
    if right == "" {
      assert s + right == s;
    } else {
      assert (s + right)[..|s + right| - 1] == s + right[..|right| - 1];
      TrimRightExactly(s, right[..|right| - 1]);
    }
  }

  lemma {:induction false} TrimLeftExactly(left: string, s: string)
    requires AllSpace(left) && (s == "" || !IsSpace(s[0]))
    ensures TrimLeft(left + s) == s
  {
    hide IsSpace;
    if left == "" {
      assert left + s == s;
    } else {
      assert (left + s)[1..] == left[1..] + s;
      TrimLeftExactly(left[1..], s);
    }
  }

  /** Trimming takes off the white space around a text, and nothing else. */
  lemma TrimExactly(left: string, s: string, right: string)
    requires AllSpace(left) && AllSpace(right) && Trimmed(s)
    ensures Trim(left + s + right) == s
  {
    hide IsSpace;
    if s == "" {
      AllSpaceTrims(left + right);
      assert left + s + right == left + right;
    } else {
      assert left + s + right == left + (s + right);
      TrimLeftExactly(left, s + right);
      TrimRightExactly(s, right);
    }
  }

  /** Every text is its trimmed text with white space around it. */
  lemma {:induction false} TrimTakes(s: string) returns (left: string, right: string)
    ensures s == left + Trim(s) + right
    ensures AllSpace(left) && AllSpace(right) && Trimmed(Trim(s))
  {
    hide IsSpace;
    if s == "" {
      left, right := "", "";
    } else if IsSpace(s[0]) {
      left, right := TrimTakes(s[1..]);
      left := [s[0]] + left;
    } else if IsSpace(s[|s| - 1]) {
      var front := s[..|s| - 1];
      left, right := TrimTakes(front);
      assert TrimLeft(front) == front;
      right := right + [s[|s| - 1]];
    } else {
      left, right := "", "";
    }
  }

  lemma AllSpaceTrims(s: string)
    requires AllSpace(s)
    ensures Trim(s) == ""
  {
    hide IsSpace;
    TrimLeftExactly(s, "");
    assert s + "" == s;
  }
}
