/** UTF-8 and UTF-16: one symbol at a time, whole strings, and when converting there and back is lossless.
    Bytes and units are numbers; a shift is a division, and setting bits that are clear is an addition. */
module Utf {

  type Byte = x: nat | x < 256
  type Unit = x: nat | x < 0x1_0000

  const BROKEN_RUNE: nat := 0xFFFD
  const LIMIT: nat := 0x11_0000

  predicate IsLead(u: nat) { 0xD800 <= u < 0xDC00 }

  predicate IsTail(u: nat) { 0xDC00 <= u < 0xE000 }

  predicate IsSurrogate(u: nat) { 0xD800 <= u < 0xE000 }

  /** A code point that stands for a character. */
  predicate IsScalar(r: nat) { r < LIMIT && !IsSurrogate(r) }

  datatype Read = Ok(rune: nat, len: nat) | EndOfInput | Broken

  // ---------------------------------------------------------------- UTF-8, one symbol

  predicate IsContinuation(c: Byte) { c / 64 == 2 }

  function RuneLen(lead: Byte): nat {
    if lead < 0x80 then 1 else if lead / 32 == 6 then 2 else if lead / 16 == 14 then 3 else if lead / 8 == 30 then 4
      else 0
  }

  function SixBits(rune: nat, c: Byte): nat { rune * 64 + c % 64 }

  /** WriteUTF8Char. */
  function Encode(rune: nat): (s: seq<Byte>)
    requires rune < LIMIT
  {
    if rune < 0x80 then [rune]
    else if rune < 0x800 then [0xC0 + rune / 64, 0x80 + rune % 64]
    else if rune < 0x1_0000 then [0xE0 + rune / 4096, 0x80 + rune / 64 % 64, 0x80 + rune % 64]
    else [0xF0 + rune / 262144 % 8, 0x80 + rune / 4096 % 64, 0x80 + rune / 64 % 64, 0x80 + rune % 64]
  }

  /** ReadUTF8CharAndAdvance: how far it advances is the length; it does not advance otherwise. */
  function ReadAdvance(s: seq<Byte>): Read
    requires s != []
  {
    var n := RuneLen(s[0]);
    if n == 0 then Broken
    else if n == 1 then Ok(s[0], 1)
    else if n > |s| then EndOfInput
    else if n == 2 then
      if !IsContinuation(s[1]) then Broken
      else
        var rune := SixBits(s[0] % 32, s[1]);
        if rune < 0x80 then Broken else Ok(rune, 2)
    else if n == 3 then
      if !IsContinuation(s[1]) || !IsContinuation(s[2]) then Broken
      else
        var rune := SixBits(SixBits(s[0] % 16, s[1]), s[2]);
        if rune < 0x800 then Broken else Ok(rune, 3)
    else if !IsContinuation(s[1]) || !IsContinuation(s[2]) || !IsContinuation(s[3]) then Broken
    else
      var rune := SixBits(SixBits(SixBits(s[0] % 8, s[1]), s[2]), s[3]);
      if rune < 0x1_0000 || rune > 0x10_FFFF then Broken else Ok(rune, 4)
  }

  /** SafeReadUTF8Char: byte by byte. */
  method SafeRead(s: seq<Byte>) returns (r: Read)
    requires s != []
    ensures r == ReadAdvance(s)
  {
    var len := RuneLen(s[0]);
    if len > |s| {
      return EndOfInput;
    }
    if len == 0 {
      return Broken;
    }
    var rune: nat := s[0];
    if len > 1 {
      rune := if len == 2 then rune % 32 else if len == 3 then rune % 16 else rune % 8;
      if !IsContinuation(s[1]) {
        return Broken;
      }
      rune := SixBits(rune, s[1]);
      if len > 2 {
        if !IsContinuation(s[2]) {
          return Broken;
        }
        rune := SixBits(rune, s[2]);
        if len > 3 {
          if !IsContinuation(s[3]) {
            return Broken;
          }
          rune := SixBits(rune, s[3]);
          if rune > 0x10_FFFF {
            return Broken;
          }
          if rune < 0x1_0000 {
            return Broken;
          }
        } else if rune < 0x800 {
          return Broken;
        }
      } else if rune < 0x80 {
        return Broken;
      }
    }
    r := Ok(rune, len);
  }

  lemma Read3(rune: nat, s: seq<Byte>)
    requires 0x800 <= rune < 0x1_0000 && |s| >= 3
    requires s[0] == 0xE0 + rune / 4096 && s[1] == 0x80 + rune / 64 % 64 && s[2] == 0x80 + rune % 64
    ensures ReadAdvance(s) == Ok(rune, 3)
  {
    assert SixBits(rune / 4096, s[1]) == rune / 64;
  }

  lemma Read4(rune: nat, s: seq<Byte>)
    requires 0x1_0000 <= rune < LIMIT && |s| >= 4
    requires s[0] == 0xF0 + rune / 262144 && s[1] == 0x80 + rune / 4096 % 64 && s[2] == 0x80 + rune / 64 % 64
    requires s[3] == 0x80 + rune % 64
    ensures ReadAdvance(s) == Ok(rune, 4)
  {
    NextSix(rune / 262144, rune / 4096, s[1]);
    NextSix(rune / 4096, rune / 64, s[2]);
    NextSix(rune / 64, rune, s[3]);
    assert s[0] % 8 == rune / 262144;
  }

  lemma NextSix(high: nat, whole: nat, b: Byte)
    requires high == whole / 64 && b == 0x80 + whole % 64
    ensures SixBits(high, b) == whole
  {
  }

  /** What is written is read back, whatever follows. */
  lemma EncodeThenRead(rune: nat, rest: seq<Byte>)
    requires rune < LIMIT
    ensures ReadAdvance(Encode(rune) + rest) == Ok(rune, |Encode(rune)|) && |Encode(rune)| > 0
  {
    var e := Encode(rune);
    var s := e + rest;
    assert forall i :: 0 <= i < |e| ==> s[i] == e[i];
    if 0x800 <= rune < 0x1_0000 {
      Read3(rune, s);
    } else if rune >= 0x1_0000 {
      Read4(rune, s);
    }
  }

  /** Every symbol has one encoding: what is read is what would be written. */
  lemma ReadThenEncode(s: seq<Byte>)
    requires s != [] && ReadAdvance(s).Ok?
    ensures var r := ReadAdvance(s); r.rune < LIMIT && 0 < r.len <= |s| && Encode(r.rune) == s[..r.len]
  {
    var r := ReadAdvance(s);
    var n := r.len;
    if n == 2 {
      assert r.rune / 64 == s[0] % 32 && r.rune % 64 == s[1] % 64;
    } else if n == 3 {
      ThreeBytes(s, r.rune);
    } else if n == 4 {
      FourBytes(s, r.rune);
    }
  }

  lemma ThreeBytes(s: seq<Byte>, rune: nat)
    requires s != [] && ReadAdvance(s) == Ok(rune, 3)
    ensures rune < LIMIT && |s| >= 3 && Encode(rune) == s[..3]
  {
    var high := SixBits(s[0] % 16, s[1]);
    assert rune == SixBits(high, s[2]);
    Split(s[0] % 16, s[1]);
    Split(high, s[2]);
    Twice(rune);
  }

  /** The six bits last read, and those before. */
  lemma Split(high: nat, b: Byte)
    ensures SixBits(high, b) / 64 == high && SixBits(high, b) % 64 == b % 64
  {
  }

  lemma Twice(x: nat)
    ensures x / 4096 == x / 64 / 64 && x / 262144 == x / 64 / 64 / 64
  {
  }

  lemma FourBytes(s: seq<Byte>, rune: nat)
    requires s != [] && ReadAdvance(s) == Ok(rune, 4)
    ensures rune < LIMIT && |s| >= 4 && Encode(rune) == s[..4]
  {
    var top := SixBits(s[0] % 8, s[1]);
    var high := SixBits(top, s[2]);
    assert rune == SixBits(high, s[3]);
    Split(s[0] % 8, s[1]);
    Split(top, s[2]);
    Split(high, s[3]);
    Twice(rune);
  }

  /** A symbol is cut off just when its lead byte announces more bytes than there are. */
  lemma CutOff(s: seq<Byte>)
    requires s != []
    ensures ReadAdvance(s) == EndOfInput <==>
      || (0xC0 <= s[0] < 0xE0 && |s| < 2) || (0xE0 <= s[0] < 0xF0 && |s| < 3) || (0xF0 <= s[0] < 0xF8 && |s| < 4)
  {
  }

  // ---------------------------------------------------------------- the order of runes

  /** The sequences differ first at place k, where `a` is less. */
  predicate LessAt(a: seq<nat>, b: seq<nat>, k: nat) {
    k < |a| && k < |b| && a[k] < b[k] && forall i :: 0 <= i < k ==> a[i] == b[i]
  }

  ghost predicate Less(a: seq<nat>, b: seq<nat>) { exists k: nat :: LessAt(a, b, k) }

  lemma Digits(r: nat, s: nat)
    requires r < s
    ensures r / 64 < s / 64 || (r / 64 == s / 64 && r % 64 < s % 64)
  {
  }

  /** UTF-8 keeps the order of the runes. Together with the round trips, and since as many forms as runes
      are accepted for each length, this leaves only one encoding. */
  lemma EncodeOrder(r: nat, s: nat)
    requires r < s < LIMIT
    ensures Less(Encode(r), Encode(s)) && |Encode(r)| <= |Encode(s)|
  {
    if |Encode(r)| < |Encode(s)| || s < 0x80 {
      assert LessAt(Encode(r), Encode(s), 0);
    } else if s < 0x800 {
      Digits(r, s);
      assert LessAt(Encode(r), Encode(s), if r / 64 < s / 64 then 0 else 1);
    } else if s < 0x1_0000 {
      ThreeOrder(r, s);
    } else {
      FourOrder(r, s);
    }
  }

  lemma ThreeOrder(r: nat, s: nat)
    requires 0x800 <= r < s < 0x1_0000
    ensures Less(Encode(r), Encode(s))
  {
    var k := LessDigit(r, s, 2);
    Twice(r);
    Twice(s);
    assert LessAt(Encode(r), Encode(s), k);
  }

  lemma FourOrder(r: nat, s: nat)
    requires 0x1_0000 <= r < s < LIMIT
    ensures Less(Encode(r), Encode(s))
  {
    var k := LessDigit(r, s, 3);
    Twice(r);
    Twice(s);
    assert r / 262144 < 8 && s / 262144 < 8;
    assert LessAt(Encode(r), Encode(s), k);
  }

  /** The place of the first digit to base 64 in which two runes differ. */
  lemma LessDigit(r: nat, s: nat, n: nat) returns (k: nat)
    requires r < s < LIMIT && 2 <= n <= 3
    requires n == 2 ==> s < 0x1_0000
    ensures k <= n
    ensures k == n ==> r % 64 < s % 64 && r / 64 == s / 64
    ensures k == n - 1 ==> r / 64 % 64 < s / 64 % 64 && r / 64 / 64 == s / 64 / 64
    ensures n == 2 && k == 0 ==> r / 64 / 64 < s / 64 / 64
    ensures n == 3 && k == 1 ==> r / 64 / 64 % 64 < s / 64 / 64 % 64 && r / 64 / 64 / 64 == s / 64 / 64 / 64
    ensures n == 3 && k == 0 ==> r / 64 / 64 / 64 < s / 64 / 64 / 64
  {
    Digits(r, s);
    if r / 64 == s / 64 {
      return n;
    }
    Digits(r / 64, s / 64);
    if r / 64 / 64 == s / 64 / 64 {
      return n - 1;
    }
    if n == 2 {
      return 0;
    }
    Digits(r / 64 / 64, s / 64 / 64);
    k := if r / 64 / 64 / 64 == s / 64 / 64 / 64 then 1 else 0;
  }

  // ---------------------------------------------------------------- UTF-16, one symbol

  /** WriteSymbol and WriteSurrogatePair. */
  function Units(rune: nat): (w: seq<Unit>)
    requires rune < LIMIT
  {
    if rune > 0xFFFF then [0xD800 - 64 + rune / 1024, 0xDC00 + rune % 1024] else [rune]
  }

  /** ReadSymbolAndAdvance and ReadSurrogatePair: the rune and how many units it took. */
  function ReadUnits(w: seq<Unit>): (r: (nat, nat))
    requires w != []
    ensures r.0 < LIMIT && 1 <= r.1 <= |w| && r.1 <= 2
  {
    if IsLead(w[0]) then
      if |w| > 1 && IsTail(w[1]) then
        var lead: int, tail: int := w[0], w[1];
        (lead * 1024 + tail + 0x1_0000 - 0xD800 * 1024 - 0xDC00, 2)
      else (BROKEN_RUNE, 1)
    else if IsTail(w[0]) then (BROKEN_RUNE, 1)
    else (w[0], 1)
  }

  lemma UnitsThenRead(rune: nat, rest: seq<Unit>)
    requires IsScalar(rune)
    ensures ReadUnits(Units(rune) + rest) == (rune, |Units(rune)|)
  {
    var w := Units(rune) + rest;
    if rune > 0xFFFF {
      assert w[0] == 0xD800 - 64 + rune / 1024 && w[1] == 0xDC00 + rune % 1024;
    }
  }

  /** UTF-16 keeps the order of the characters beyond 0xFFFF: the lead unit tells which 1024 of them, the tail
      which of these. */
  lemma UnitsOrder(r: nat, s: nat)
    requires 0xFFFF < r < s < LIMIT
    ensures Less(Units(r), Units(s)) && IsLead(Units(r)[0]) && IsTail(Units(r)[1])
    ensures Units(r)[0] == Units(s)[0] <==> (r - 0x1_0000) / 1024 == (s - 0x1_0000) / 1024
  {
    assert r / 1024 - 64 == (r - 0x1_0000) / 1024 && s / 1024 - 64 == (s - 0x1_0000) / 1024;
    assert LessAt(Units(r), Units(s), if r / 1024 < s / 1024 then 0 else 1);
  }

  /** Outside lone surrogates every symbol has one form. */
  lemma ReadThenUnits(w: seq<Unit>)
    requires w != [] && (IsSurrogate(w[0]) ==> ReadUnits(w).1 == 2)
    ensures var (rune, n) := ReadUnits(w); IsScalar(rune) && Units(rune) == w[..n]
  {
    if IsLead(w[0]) {
      var rune := ReadUnits(w).0;
      var lead: int, tail: int := w[0], w[1];
      assert rune == (lead - 0xD800 + 64) * 1024 + (tail - 0xDC00);
      assert rune / 1024 == lead - 0xD800 + 64 && rune % 1024 == tail - 0xDC00;
    }
  }

  // ---------------------------------------------------------------- whole strings

  datatype Wide = Wide(units: seq<Unit>, pos: nat)

  /** UTF8ToWide: the units, and how many bytes were read before a broken symbol. */
  function ToWide(s: seq<Byte>): (w: Wide)
    ensures w.pos <= |s|
    decreases |s|
  {
    if s == [] then Wide([], 0)
    else
      match ReadAdvance(s)
      case Ok(rune, n) =>
        ReadThenEncode(s);
        var rest := ToWide(s[n..]);
        Wide(Units(rune) + rest.units, n + rest.pos)
      case _ => Wide([], 0)
  }

  /** The robust reader: a byte that begins no symbol counts as one broken symbol. */
  function ReadRobust(s: seq<Byte>): (r: (nat, nat))
    requires s != []
    ensures r.0 < LIMIT && 0 < r.1 <= |s|
  {
    match ReadAdvance(s)
    case Ok(rune, n) => ReadThenEncode(s); (rune, n)
    case _ => (BROKEN_RUNE, 1)
  }

  function ToWideRobust(s: seq<Byte>): seq<Unit>
    decreases |s|
  {
    if s == [] then [] else
      var (rune, n) := ReadRobust(s);
      Units(rune) + ToWideRobust(s[n..])
  }

  /** WideToUTF8. */
  function FromWide(w: seq<Unit>): seq<Byte>
    decreases |w|
  {
    if w == [] then [] else
      var (rune, n) := ReadUnits(w);
      Encode(rune) + FromWide(w[n..])
  }

  /** A byte at which no symbol begins becomes one replacement character, and reading goes on after it; at a
      symbol the robust form does what the other does. */
  lemma {:induction false} RobustStep(s: seq<Byte>)
    requires s != []
    ensures !ReadAdvance(s).Ok? ==> ToWideRobust(s) == [0xFFFD] + ToWideRobust(s[1..])
    ensures ToWide(s).pos == |s| ==> ToWideRobust(s) == ToWide(s).units
    decreases |s|
  {
    if ReadAdvance(s).Ok? {
      var rest := s[ReadAdvance(s).len..];
      ReadThenEncode(s);
      if rest != [] { RobustStep(rest); }
    }
  }

  /** A surrogate alone becomes the three bytes of the replacement character. */
  lemma LoneSurrogate(w: seq<Unit>)
    requires w != [] && IsSurrogate(w[0]) && !(IsLead(w[0]) && |w| > 1 && IsTail(w[1]))
    ensures FromWide(w) == [0xEF, 0xBF, 0xBD] + FromWide(w[1..])
  {
  }

  lemma Assoc<T>(x: seq<T>, y: seq<T>, z: seq<T>)
    ensures (x + y) + z == x + (y + z)
  {
  }

  lemma ToWideNext(s: seq<Byte>, rune: nat, n: nat, rest: seq<Byte>, units: seq<Unit>)
    requires s != [] && ReadAdvance(s) == Ok(rune, n) && rune < LIMIT && n <= |s| && rest == s[n..]
    ensures units + ToWide(s).units == units + Units(rune) + ToWide(rest).units
    ensures ToWide(s).pos == n + ToWide(rest).pos
  {
    Assoc(units, Units(rune), ToWide(rest).units);
  }

  lemma StopsAt(s: seq<Byte>, units: seq<Unit>)
    requires s != [] && !ReadAdvance(s).Ok?
    ensures ToWide(s) == Wide([], 0) && units + ToWide(s).units == units
  {
  }

  lemma FromWideNext(w: seq<Unit>, rune: nat, n: nat, rest: seq<Unit>, s: seq<Byte>)
    requires w != [] && ReadUnits(w) == (rune, n) && n <= |w| && rune < LIMIT && rest == w[n..]
    ensures s + FromWide(w) == s + Encode(rune) + FromWide(rest)
  {
    Assoc(s, Encode(rune), FromWide(rest));
  }

  lemma DropMore<T>(s: seq<T>, i: nat, n: nat, rest: seq<T>)
    requires i <= |s| && rest == s[i..] && n <= |rest|
    ensures rest[n..] == s[i + n..]
  {
  }

  /** UTF8ToWideImplScalar, which stops at a broken symbol. */
  method Utf8ToWide(s: seq<Byte>) returns (units: seq<Unit>, pos: nat)
    ensures Wide(units, pos) == ToWide(s)
  {
    units, pos := [], 0;
    var rest := s;
    while pos != |s|
      invariant pos <= |s| && rest == s[pos..]
      invariant units + ToWide(rest).units == ToWide(s).units && pos + ToWide(rest).pos == ToWide(s).pos
      decreases |s| - pos
    {
      var r := ReadAdvance(rest);
      if !r.Ok? {
        StopsAt(rest, units);
        break;
      }
      ReadThenEncode(rest);
      ToWideNext(rest, r.rune, r.len, rest[r.len..], units);
      DropMore(s, pos, r.len, rest);
      units := units + Units(r.rune);
      pos, rest := pos + r.len, rest[r.len..];
    }
  }

  /** UTF8ToWideImplScalar in its robust form. */
  method Utf8ToWideRobust(s: seq<Byte>) returns (units: seq<Unit>)
    ensures units == ToWideRobust(s)
  {
    units := [];
    var pos, rest := 0, s;
    while pos != |s|
      invariant pos <= |s| && rest == s[pos..] && units + ToWideRobust(rest) == ToWideRobust(s)
      decreases |s| - pos
    {
      var (rune, n) := ReadRobust(rest);
      Assoc(units, Units(rune), ToWideRobust(rest[n..]));
      DropMore(s, pos, n, rest);
      units := units + Units(rune);
      pos, rest := pos + n, rest[n..];
    }
  }

  /** The loop of WideToUTF8. */
  method WideToUtf8(w: seq<Unit>) returns (s: seq<Byte>)
    ensures s == FromWide(w)
  {
    s := [];
    var cur, rest := 0, w;
    while cur != |w|
      invariant cur <= |w| && rest == w[cur..] && s + FromWide(rest) == FromWide(w)
      decreases |w| - cur
    {
      var (rune, n) := ReadUnits(rest);
      FromWideNext(rest, rune, n, rest[n..], s);
      DropMore(w, cur, n, rest);
      s := s + Encode(rune);
      cur, rest := cur + n, rest[n..];
    }
  }

  /** The buffers suffice: no more units than bytes, no more than four bytes a unit. */
  lemma {:induction false} WideFits(s: seq<Byte>)
    ensures |ToWide(s).units| <= ToWide(s).pos && |ToWideRobust(s)| <= |s|
    decreases |s|
  {
    if s != [] {
      WideFits(s[ReadRobust(s).1..]);
      if ReadAdvance(s).Ok? { ReadThenEncode(s); }
    }
  }

  lemma {:induction false} Utf8Fits(w: seq<Unit>)
    ensures |FromWide(w)| <= 4 * |w|
    decreases |w|
  {
    if w != [] { Utf8Fits(w[ReadUnits(w).1..]); }
  }

  // ---------------------------------------------------------------- there and back

  function EncodeAll(runes: seq<nat>): seq<Byte>
    requires forall i :: 0 <= i < |runes| ==> runes[i] < LIMIT
  {
    if runes == [] then [] else Encode(runes[0]) + EncodeAll(runes[1..])
  }

  function UnitsAll(runes: seq<nat>): seq<Unit>
    requires forall i :: 0 <= i < |runes| ==> runes[i] < LIMIT
  {
    if runes == [] then [] else Units(runes[0]) + UnitsAll(runes[1..])
  }

  /** Text of characters goes to its UTF-16 form and back to its UTF-8 form. */
  lemma {:induction false} CharactersRoundTrip(runes: seq<nat>)
    requires forall i :: 0 <= i < |runes| ==> runes[i] < LIMIT && IsScalar(runes[i])
    ensures ToWide(EncodeAll(runes)) == Wide(UnitsAll(runes), |EncodeAll(runes)|)
    ensures FromWide(UnitsAll(runes)) == EncodeAll(runes)
  {
    if runes != [] {
      var r, rest := runes[0], runes[1..];
      CharactersRoundTrip(rest);
      EncodeThenRead(r, EncodeAll(rest));
      assert (Encode(r) + EncodeAll(rest))[|Encode(r)|..] == EncodeAll(rest);
      UnitsThenRead(r, UnitsAll(rest));
      assert (Units(r) + UnitsAll(rest))[|Units(r)|..] == UnitsAll(rest);
    }
  }

  /** Every surrogate is in a pair. */
  predicate Paired(w: seq<Unit>)
    decreases |w|
  {
    w == [] || ((IsSurrogate(w[0]) ==> ReadUnits(w).1 == 2) && Paired(w[ReadUnits(w).1..]))
  }

  lemma Head(w: seq<Unit>, x: seq<Unit>, y: seq<Unit>)
    requires |x| <= |w|
    ensures x + y == w <==> x == w[..|x|] && y == w[|x|..]
  {
    if x + y == w { assert (x + y)[..|x|] == x && (x + y)[|x|..] == y; }
    assert w == w[..|x|] + w[|x|..];
  }

  lemma HeadBytes(s: seq<Byte>, x: seq<Byte>, y: seq<Byte>)
    requires |x| <= |s|
    ensures x + y == s <==> x == s[..|x|] && y == s[|x|..]
  {
    if x + y == s { assert (x + y)[..|x|] == x && (x + y)[|x|..] == y; }
    assert s == s[..|x|] + s[|x|..];
  }

  /** UTF-16 text survives UTF-8 if and only if its surrogates are paired. */
  lemma {:induction false} WideRoundTrip(w: seq<Unit>)
    ensures ToWide(FromWide(w)).pos == |FromWide(w)|
    ensures ToWide(FromWide(w)).units == w <==> Paired(w)
    decreases |w|
  {
    if w != [] {
      var (rune, n) := ReadUnits(w);
      var rest := FromWide(w[n..]);
      WideRoundTrip(w[n..]);
      EncodeThenRead(rune, rest);
      assert (Encode(rune) + rest)[|Encode(rune)|..] == rest;
      if IsSurrogate(w[0]) && n == 1 {
        assert ToWide(FromWide(w)).units[0] == BROKEN_RUNE;
      } else {
        ReadThenUnits(w);
        Head(w, Units(rune), ToWide(rest).units);
      }
    }
  }

  /** Decodes to the end, and holds no encoded surrogate. */
  predicate WellFormed(s: seq<Byte>)
    decreases |s|
  {
    s == [] || (ReadAdvance(s).Ok? && IsScalar(ReadAdvance(s).rune) && 0 < ReadAdvance(s).len <= |s|
      && WellFormed(s[ReadAdvance(s).len..]))
  }

  /** A surrogate written by itself is not read back as such. */
  lemma SurrogateChanges(r: nat, rest: seq<Unit>, s: seq<Byte>)
    requires IsSurrogate(r) && s != [] && s[0] == Encode(r)[0]
    ensures FromWide([r] + rest) != s
  {
    var w: seq<Unit> := [r] + rest;
    var (rune, n) := ReadUnits(w);
    assert rune == BROKEN_RUNE || rune >= 0x1_0000;
    assert FromWide(w)[0] == Encode(rune)[0] != 0xED == Encode(r)[0];
  }

  /** UTF-8 text that decodes survives UTF-16 if and only if it holds no encoded surrogate. */
  lemma {:induction false} Utf8RoundTrip(s: seq<Byte>)
    requires ToWide(s).pos == |s|
    ensures FromWide(ToWide(s).units) == s <==> WellFormed(s)
    decreases |s|
  {
    if s != [] {
      assert ReadAdvance(s).Ok?;
      var rune, n := ReadAdvance(s).rune, ReadAdvance(s).len;
      ReadThenEncode(s);
      Utf8RoundTrip(s[n..]);
      var rest := ToWide(s[n..]).units;
      if IsSurrogate(rune) {
        assert Encode(rune)[0] == s[..n][0];
        SurrogateChanges(rune, rest, s);
      } else {
        UnitsThenRead(rune, rest);
        assert (Units(rune) + rest)[|Units(rune)|..] == rest;
        HeadBytes(s, Encode(rune), FromWide(rest));
      }
    }
  }
}
