/** pkg/base/eventx/seckill_purchase.go:44-49: BuildSeckillOrderNo. */
module OrderNumber {
  import opened Decimal

  /** unicode.IsSpace. */
  predicate IsSpace(c: char)
  {
    || c in {'\t', '\n', '\U{0B}', '\U{0C}', '\r', ' ', '\U{85}', '\U{A0}', '\U{1680}', '\U{2028}', '\U{2029}',
             '\U{202F}', '\U{205F}', '\U{3000}'}
    || '\U{2000}' <= c <= '\U{200A}'
  }

  function TrimLeft(s: string): string
  {
    if s != [] && IsSpace(s[0]) then TrimLeft(s[1..]) else s
  }

  function TrimRight(s: string): string
  {
    if s != [] && IsSpace(s[|s| - 1]) then TrimRight(s[..|s| - 1]) else s
  }

  /** strings.TrimSpace. */
  function TrimSpace(s: string): string
  {
    TrimRight(TrimLeft(s))
  }

  /** The text that is hashed. */
  function PreImage(userId: int, activityId: int, itemId: int, key: string): string
  {
    Render(userId) + ":" + (Render(activityId) + ":" + (Render(itemId) + ":" + TrimSpace(key)))
  }

  type Nibble = n: int | 0 <= n < 16 witness 0

  function HexUpper(n: Nibble): char
  {
    "0123456789ABCDEF"[n]
  }

  /** `digest` stands for SHA-1: the 40 hexadecimal digits of a text. */
  function OrderNo(digest: string -> seq<Nibble>, userId: int, activityId: int, itemId: int, key: string): string
    requires forall text :: |digest(text)| == 40
  {
    "SCK" + Hex(digest(PreImage(userId, activityId, itemId, key)))[..29]
  }

  function Hex(digits: seq<Nibble>): (s: string)
    ensures |s| == |digits|
  {
    seq(|digits|, i requires 0 <= i < |digits| => HexUpper(digits[i]))
  }

  /** Text before the first separator, and text after it, are determined by the whole. */
  lemma SplitUnique(p: string, q: string, p': string, q': string)
    requires forall i :: 0 <= i < |p| ==> p[i] != ':'
    requires forall i :: 0 <= i < |p'| ==> p'[i] != ':'
    requires p + ":" + q == p' + ":" + q'
    ensures p == p' && q == q'
  {
    var s := p + ":" + q;
    var s' := p' + ":" + q';
    assert s[|p|] == ':' && s'[|p'|] == ':';
    assert forall i :: 0 <= i < |p| ==> s[i] == p[i];
    assert forall i :: 0 <= i < |p'| ==> s'[i] == p'[i];
    assert |p| == |p'|;
    assert p == s[..|p|] == s'[..|p'|] == p';
    assert q == s[|p| + 1..] == s'[|p'| + 1..] == q';
  }

  lemma NoColon(n: int)
    ensures forall i :: 0 <= i < |Render(n)| ==> Render(n)[i] != ':'
  {
    RenderChars(n);
  }

  /**
   * The hashed text is injective in (user, activity, item, trimmed key), even when the
   * key itself contains ':'; keys that trim alike give the same text.
   */
  lemma PreImageInjective(u: int, a: int, i: int, k: string, u': int, a': int, i': int, k': string)
    ensures PreImage(u, a, i, k) == PreImage(u', a', i', k')
            <==> u == u' && a == a' && i == i' && TrimSpace(k) == TrimSpace(k')
  {
    if PreImage(u, a, i, k) == PreImage(u', a', i', k') {
      NoColon(u); NoColon(u'); NoColon(a); NoColon(a'); NoColon(i); NoColon(i');
      var rest, rest' := Render(i) + ":" + TrimSpace(k), Render(i') + ":" + TrimSpace(k');
      SplitUnique(Render(u), Render(a) + ":" + rest, Render(u'), Render(a') + ":" + rest');
      SplitUnique(Render(a), rest, Render(a'), rest');
      SplitUnique(Render(i), TrimSpace(k), Render(i'), TrimSpace(k'));
      RenderInjective(u, u');
      RenderInjective(a, a');
      RenderInjective(i, i');
    }
  }

  lemma HexInjective(a: Nibble, b: Nibble)
    requires HexUpper(a) == HexUpper(b)
    ensures a == b
  {
  }

  /** The hashed text: three decimal numbers and the trimmed key, separated by colons. */
  lemma PreImageText(u: int, a: int, i: int, k: string)
    ensures PreImage(u, a, i, k) == Render(u) + ":" + Render(a) + ":" + Render(i) + ":" + TrimSpace(k)
    ensures u >= 0 ==> Value(Render(u)) == u
    ensures u < 0 ==> Render(u)[0] == '-' && Value(Render(u)[1..]) == -u
  {
    hide Render, TrimSpace, Value;
    RenderReadsBack(u);
    Colons(Render(u), Render(a), Render(i), TrimSpace(k));
  }

  lemma Colons(a: string, b: string, c: string, d: string)
    ensures a + ":" + (b + ":" + (c + ":" + d)) == a + ":" + b + ":" + c + ":" + d
  {
    assert b + ":" + (c + ":" + d) == b + ":" + c + ":" + d;
  }

  lemma HexMeaning(n: Nibble)
    ensures HexUpper(n) as int == if n < 10 then '0' as int + n else 'A' as int + (n - 10)
  {
  }

  /**
   * Every order number is "SCK" and the first 29 digits of the digest in capitals, and two purchases share one
   * exactly when the first 29 digits of their digests agree.
   */
  lemma OrderNumbers(digest: string -> seq<Nibble>, u: int, a: int, i: int, k: string, u': int, a': int, i': int, k': string)
    requires forall text :: |digest(text)| == 40
    ensures |OrderNo(digest, u, a, i, k)| == 32 && OrderNo(digest, u, a, i, k)[..3] == "SCK"
    ensures forall j :: 0 <= j < 29 ==>
              var d := digest(PreImage(u, a, i, k))[j];
              OrderNo(digest, u, a, i, k)[3 + j] as int == (if d < 10 then '0' as int + d else 'A' as int + (d - 10))
    ensures OrderNo(digest, u, a, i, k) == OrderNo(digest, u', a', i', k')
            <==> digest(PreImage(u, a, i, k))[..29] == digest(PreImage(u', a', i', k'))[..29]
  {
    var d, d' := digest(PreImage(u, a, i, k)), digest(PreImage(u', a', i', k'));
    var n, n' := OrderNo(digest, u, a, i, k), OrderNo(digest, u', a', i', k');
    assert n[..3] == "SCK" && n[3..] == Hex(d)[..29] && n'[3..] == Hex(d')[..29];
    forall j | 0 <= j < 29 ensures n[3 + j] == HexUpper(d[j]) {
      HexMeaning(d[j]);
      assert n[3..][j] == Hex(d)[j];
    }
    forall j: nat | j < 29 ensures HexUpper(d[j]) as int == if d[j] < 10 then '0' as int + d[j] else 'A' as int + (d[j] - 10) {
      HexMeaning(d[j]);
    }
    if n == n' {
      forall j | 0 <= j < 29 ensures d[j] == d'[j] {
        assert Hex(d)[..29][j] == HexUpper(d[j]) && Hex(d')[..29][j] == HexUpper(d'[j]);
        HexInjective(d[j], d'[j]);
      }
      assert d[..29] == d'[..29];
    } else if d[..29] == d'[..29] {
      forall j | 0 <= j < 29 ensures Hex(d)[..29][j] == Hex(d')[..29][j] {
        assert d[..29][j] == d'[..29][j];
      }
    }
  }

  lemma {:induction false} TrimLeftShape(s: string) returns (n: nat)
    ensures n <= |s| && TrimLeft(s) == s[n..]
    ensures forall i :: 0 <= i < n ==> IsSpace(s[i])
    ensures n < |s| ==> !IsSpace(s[n])
  {
    if s != [] && IsSpace(s[0]) {
      var m := TrimLeftShape(s[1..]);
      n := m + 1;
    } else {
      n := 0;
    }
  }

  lemma {:induction false} TrimRightShape(s: string) returns (n: nat)
    ensures n <= |s| && TrimRight(s) == s[..n]
    ensures forall i :: n <= i < |s| ==> IsSpace(s[i])
    ensures n > 0 ==> !IsSpace(s[n - 1])
  {
    if s != [] && IsSpace(s[|s| - 1]) {
      n := TrimRightShape(s[..|s| - 1]);
    } else {
      n := |s|;
    }
  }

  /** Trimming removes the surrounding space, all of it and nothing else. */
  lemma TrimSpaceMeaning(s: string) returns (n: nat, m: nat)
    ensures n <= m <= |s| && TrimSpace(s) == s[n..m]
    ensures forall i :: 0 <= i < n || m <= i < |s| ==> IsSpace(s[i])
    ensures n < m ==> !IsSpace(s[n]) && !IsSpace(s[m - 1])
  {
    n := TrimLeftShape(s);
    var k := TrimRightShape(TrimLeft(s));
    m := n + k;
    assert TrimSpace(s) == s[n..][..k] == s[n..m];
    forall i | m <= i < |s| ensures IsSpace(s[i]) {
      assert s[i] == TrimLeft(s)[i - n];
    }
  }

  /** The usual white space of ASCII, and nothing visible of it. */
  lemma AsciiSpaces(c: char)
    requires c < '\U{80}'
    ensures IsSpace(c) <==> c == ' ' || '\t' <= c <= '\r'
  {
  }

  /** Trimming removes exactly the surrounding space, and trimming again removes nothing. */
  lemma TrimSpaceIdempotent(s: string)
    ensures TrimSpace(TrimSpace(s)) == TrimSpace(s)
    ensures TrimSpace(s) != [] ==> !IsSpace(TrimSpace(s)[0]) && !IsSpace(TrimSpace(s)[|TrimSpace(s)| - 1])
  {
    var n := TrimLeftShape(s);
    var m := TrimRightShape(TrimLeft(s));
    if m > 0 {
      assert TrimSpace(s)[0] == s[n];
    }
  }
}
