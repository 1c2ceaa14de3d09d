/** Base64 with padding, section 4 of RFC 4648, as the recovery journal stores before-bytes. */
module Base64 {
  import opened Base

  type Sextet = v: int | 0 <= v < 64

  function Symbol(v: Sextet): char {
    if v < 26 then 'A' + v as char
    else if v < 52 then 'a' + (v - 26) as char
    else if v < 62 then '0' + (v - 52) as char
    else if v == 62 then '+'
    else '/'
  }

  function Value(c: char): Option<Sextet> {
    if 'A' <= c <= 'Z' then Some(c as int - 'A' as int)
    else if 'a' <= c <= 'z' then Some(c as int - 'a' as int + 26)
    else if '0' <= c <= '9' then Some(c as int - '0' as int + 52)
    else if c == '+' then Some(62)
    else if c == '/' then Some(63)
    else None
  }

  /** Three bytes cut into four groups of six bits. */
  function Split(a: byte, b: byte, c: byte): (Sextet, Sextet, Sextet, Sextet) {
    var x, y, z := a as int, b as int, c as int;
    (x / 4, x % 4 * 16 + y / 16, y % 16 * 4 + z / 64, z % 64)
  }

  function First(p: Sextet, q: Sextet): byte { (p * 4 + q / 16) as byte }
  function Second(q: Sextet, r: Sextet): byte { (q % 16 * 16 + r / 4) as byte }
  function Third(r: Sextet, s: Sextet): byte { (r % 4 * 64 + s) as byte }

  function Quad(a: byte, b: byte, c: byte): (w: string)
    ensures |w| == 4
  {
    var (p, q, r, s) := Split(a, b, c);
    [Symbol(p), Symbol(q), Symbol(r), Symbol(s)]
  }

  function Encode(data: Bytes): string {
    if |data| == 0 then ""
    else if |data| == 1 then Quad(data[0], 0, 0)[..2] + "=="
    else if |data| == 2 then Quad(data[0], data[1], 0)[..3] + "="
    else Quad(data[0], data[1], data[2]) + Encode(data[3..])
  }

  /** The bytes of one quad, fewer when it ends in padding; None when it is not a quad at all. */
  function DecodeQuad(w: string): Option<Bytes>
    requires |w| == 4
  {
    match (Value(w[0]), Value(w[1]), Value(w[2]), Value(w[3]))
    case (Some(p), Some(q), Some(r), Some(s)) => Some([First(p, q), Second(q, r), Third(r, s)])
    case (Some(p), Some(q), Some(r), None) => if w[3] == '=' then Some([First(p, q), Second(q, r)]) else None
    case (Some(p), Some(q), None, None) => if w[2] == '=' && w[3] == '=' then Some([First(p, q)]) else None
    case _ => None
  }

  function Decode(text: string): Option<Bytes> {
    if text == "" then Some([])
    else if |text| < 4 then None
    else
      match (DecodeQuad(text[..4]), Decode(text[4..]))
      case (Some(head), Some(tail)) => if |head| < 3 && tail != [] then None else Some(head + tail)
      case _ => None
  }

  // ----- what decodes at all -----

  /** Symbols up to n, and at most two padding signs behind them. */
  ghost predicate SymbolsTo(text: string, n: nat) {
    && n <= |text| && (text[n..] == "" || text[n..] == "=" || text[n..] == "==")
    && forall i :: 0 <= i < n ==> Value(text[i]).Some?
  }

  lemma QuadDecodes(w: string)
    requires |w| == 4
    ensures DecodeQuad(w).Some? <==> SymbolsTo(w, 2) || SymbolsTo(w, 3) || SymbolsTo(w, 4)
    ensures DecodeQuad(w).Some? ==> |DecodeQuad(w).value| <= 3
    ensures forall n: nat :: SymbolsTo(w, n) ==> 2 <= n && DecodeQuad(w).Some? && |DecodeQuad(w).value| == n - 1
  {
    assert Value('=').None?;
    hide Value, First, Second, Third;
    assert w[4..] == "" && w[3..] == [w[3]] && w[2..] == [w[2], w[3]];
    forall n: nat | SymbolsTo(w, n)
      ensures 2 <= n && DecodeQuad(w).Some? && |DecodeQuad(w).value| == n - 1
    {
      assert |w[n..]| == 4 - n;
    }
  }

  /** A text decodes exactly if it is whole groups of four, of symbols and at most two padding signs at the end. */
  lemma {:induction false} DecodesExactly(text: string)
    ensures Decode(text).Some? <==> |text| % 4 == 0 && exists n: nat :: SymbolsTo(text, n)
    ensures Decode(text).Some? && text != "" ==> Decode(text).value != []
    ensures forall n: nat :: SymbolsTo(text, n) && |text| % 4 == 0 ==>
      Decode(text).Some? && |Decode(text).value| == |text| / 4 * 3 - (|text| - n)
  {
    hide Decode, DecodeQuad, Value, SymbolsTo;
    if |text| <= 4 {
      ShortDecodes(text);
    } else {
      DecodesExactly(text[4..]);
      QuadDecodes(text[..4]);
      TextSplits(text);
      SplitDecodes(text);
    }
  }

  lemma ShortDecodes(text: string)
    requires |text| <= 4
    ensures Decode(text).Some? <==> |text| % 4 == 0 && exists n: nat :: SymbolsTo(text, n)
    ensures Decode(text).Some? && text != "" ==> Decode(text).value != []
    ensures forall n: nat :: SymbolsTo(text, n) && |text| % 4 == 0 ==>
      Decode(text).Some? && |Decode(text).value| == |text| / 4 * 3 - (|text| - n)
  {
    hide DecodeQuad, Value, SymbolsTo;
    if text == "" {
      NoSymbols();
      assert SymbolsTo(text, 0);
    } else if |text| == 4 {
      QuadDecodes(text);
      TextSplits(text);
      assert Decode("") == Some([]);
    }
  }

  lemma SplitDecodes(text: string)
    requires |text| > 4
    requires Decode(text[4..]).Some? ==> Decode(text[4..]).value != []
    requires DecodeQuad(text[..4]).Some? ==> (|DecodeQuad(text[..4]).value| >= 3 <==> SymbolsTo(text[..4], 4))
    requires forall n: nat :: SymbolsTo(text, n) && n >= 4 <==>
        n >= 4 && SymbolsTo(text[..4], 4) && SymbolsTo(text[4..], n - 4)
    requires SymbolsTo(text[..4], 4) ==> DecodeQuad(text[..4]).Some?
    requires DecodeQuad(text[..4]).Some? ==> |DecodeQuad(text[..4]).value| <= 3
    ensures Decode(text).Some? <==> SymbolsTo(text[..4], 4) && Decode(text[4..]).Some?
    ensures Decode(text).Some? ==> |Decode(text).value| == 3 + |Decode(text[4..]).value|
    ensures forall m: nat :: SymbolsTo(text[..4], 4) && SymbolsTo(text[4..], m) ==> SymbolsTo(text, m + 4)
  {
    hide DecodeQuad, SymbolsTo;
  }

  lemma NoSymbols()
    ensures forall n: nat :: SymbolsTo("", n) <==> n == 0
  {
  }

  lemma TextSplits(text: string)
    requires |text| >= 4
    ensures |text| == 4 ==> text[..4] == text && text[4..] == ""
    ensures forall n: nat :: |text| > 4 ==> (SymbolsTo(text, n) && n >= 4 <==>
        n >= 4 && SymbolsTo(text[..4], 4) && SymbolsTo(text[4..], n - 4))
    ensures forall n: nat :: |text| > 4 && |text| % 4 == 0 && SymbolsTo(text, n) ==> n >= 4
  {
    forall n: nat | |text| > 4 && n >= 4
      ensures SymbolsTo(text, n) <==> SymbolsTo(text[..4], 4) && SymbolsTo(text[4..], n - 4)
    {
      if n <= |text| {
        assert text[4..][n - 4..] == text[n..];
        assert forall i :: 4 <= i < n ==> text[4..][i - 4] == text[i];
      }
    }
  }

  lemma SymbolValue(v: Sextet)
    ensures Value(Symbol(v)) == Some(v)
  {}

  lemma SplitJoins(a: byte, b: byte, c: byte)
    ensures var (p, q, r, s) := Split(a, b, c); First(p, q) == a && Second(q, r) == b && Third(r, s) == c
  {}

  lemma QuadValues(a: byte, b: byte, c: byte)
    ensures var (p, q, r, s) := Split(a, b, c); var w := Quad(a, b, c);
      Value(w[0]) == Some(p) && Value(w[1]) == Some(q) && Value(w[2]) == Some(r) && Value(w[3]) == Some(s)
  {
    var (p, q, r, s) := Split(a, b, c);
    SymbolValue(p);
    SymbolValue(q);
    SymbolValue(r);
    SymbolValue(s);
  }

  lemma OneByteOf(a: byte, b: byte, c: byte, w: string)
    requires |w| == 4 && w[0] == Quad(a, b, c)[0] && w[1] == Quad(a, b, c)[1] && w[2] == '=' && w[3] == '='
    ensures DecodeQuad(w) == Some([a])
  {
    SplitJoins(a, b, c);
    QuadValues(a, b, c);
  }

  lemma OneByte(a: byte)
    ensures DecodeQuad(Encode([a])) == Some([a])
  {
    OneByteOf(a, 0, 0, Encode([a]));
  }

  lemma TwoBytes(a: byte, b: byte)
    ensures DecodeQuad(Encode([a, b])) == Some([a, b])
  {
    SplitJoins(a, b, 0);
    QuadValues(a, b, 0);
    var w := Encode([a, b]);
    assert w == Quad(a, b, 0)[..3] + "=";
    assert w[0] == Quad(a, b, 0)[0] && w[1] == Quad(a, b, 0)[1] && w[2] == Quad(a, b, 0)[2] && w[3] == '=';
  }

  lemma ThreeBytes(a: byte, b: byte, c: byte)
    ensures |Quad(a, b, c)| == 4 && DecodeQuad(Quad(a, b, c)) == Some([a, b, c])
  {
    SplitJoins(a, b, c);
    QuadValues(a, b, c);
  }

  lemma DecodeLast(w: string)
    requires |w| == 4 && DecodeQuad(w).Some?
    ensures Decode(w) == DecodeQuad(w)
  {
    assert w[..4] == w && w[4..] == "";
    assert DecodeQuad(w).value + [] == DecodeQuad(w).value;
  }

  lemma DecodeMore(w: string, head: Bytes, rest: string, tail: Bytes)
    requires |w| == 4
    ensures |head| == 3 && DecodeQuad(w) == Some(head) && Decode(rest) == Some(tail) ==>
      Decode(w + rest) == Some(head + tail)
  {
    assert (w + rest)[..4] == w && (w + rest)[4..] == rest;
  }

  lemma EncodeMore(data: Bytes)
    requires |data| >= 3
    ensures Encode(data) == Quad(data[0], data[1], data[2]) + Encode(data[3..])
  {
  }

  lemma ShortRoundTrip(data: Bytes)
    requires |data| < 3
    ensures Decode(Encode(data)) == Some(data)
  {
    hide DecodeQuad, Quad;
    if |data| == 1 {
      assert data == [data[0]];
      OneByte(data[0]);
      DecodeLast(Encode(data));
    } else if |data| == 2 {
      assert data == [data[0], data[1]];
      TwoBytes(data[0], data[1]);
      DecodeLast(Encode(data));
    }
  }

  /** Before-bytes survive the journal: decoding the stored text gives them back. */
  lemma {:induction false} RoundTrip(data: Bytes)
    ensures Decode(Encode(data)) == Some(data)
  {
    hide Encode, Decode, DecodeQuad, Quad;
    if |data| < 3 {
      ShortRoundTrip(data);
    } else {
      EncodeMore(data);
      var head := [data[0], data[1], data[2]];
      ThreeBytes(data[0], data[1], data[2]);
      RoundTrip(data[3..]);
      DecodeMore(Quad(data[0], data[1], data[2]), head, Encode(data[3..]), data[3..]);
      assert head + data[3..] == data;
    }
  }
}
