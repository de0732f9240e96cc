/** The auth field of a docker config entry: base64 of `username:password` (section 4 of RFC 4648). */
module DockerAuth {
  import opened Options

  type Byte = x: int | 0 <= x < 256
  type Bytes = seq<Byte>

  const PAD: Byte := 61    // '='
  const COLON: Byte := 58  // ':'

  // ---- the alphabet ----

  /** `A`-`Z`, `a`-`z`, `0`-`9`, `+`, `/`. */
  function Letter(i: nat): (c: Byte)
    requires i < 64
  {
    if i < 26 then 65 + i
    else if i < 52 then 97 + (i - 26)
    else if i < 62 then 48 + (i - 52)
    else if i == 62 then 43
    else 47
  }

  function Value(c: Byte): (r: Option<nat>)
    ensures r.Some? ==> r.value < 64 && Letter(r.value) == c
  {
    if 65 <= c <= 90 then Some(c - 65)
    else if 97 <= c <= 122 then Some(c - 97 + 26)
    else if 48 <= c <= 57 then Some(c - 48 + 52)
    else if c == 43 then Some(62)
    else if c == 47 then Some(63)
    else None
  }

  lemma ValueOfLetter(i: nat)
    requires i < 64
    ensures Value(Letter(i)) == Some(i) && Letter(i) != PAD && !Space(Letter(i))
  {
  }

  // ---- encoding ----

  // Three bytes as four sextets; a missing byte counts as zero.
  function S0(a: Byte): (s: nat) ensures s < 64 { a / 4 }
  function S1(a: Byte, b: Byte): (s: nat) ensures s < 64 { a % 4 * 16 + b / 16 }
  function S2(b: Byte, c: Byte): (s: nat) ensures s < 64 { b % 16 * 4 + c / 64 }
  function S3(c: Byte): (s: nat) ensures s < 64 { c % 64 }

  function Encode(b: Bytes): Bytes {
    if b == [] then []
    else if |b| == 1 then [Letter(S0(b[0])), Letter(S1(b[0], 0)), PAD, PAD]
    else if |b| == 2 then [Letter(S0(b[0])), Letter(S1(b[0], b[1])), Letter(S2(b[1], 0)), PAD]
    else [Letter(S0(b[0])), Letter(S1(b[0], b[1])), Letter(S2(b[1], b[2])), Letter(S3(b[2]))] + Encode(b[3..])
  }

  // ---- decoding ----

  // Bytes from neighbouring sextets.
  function B0(w: nat, x: nat): Byte requires w < 64 && x < 64 { w * 4 + x / 16 }
  function B1(x: nat, y: nat): Byte requires x < 64 && y < 64 { x % 16 * 16 + y / 4 }
  function B2(y: nat, z: nat): Byte requires y < 64 && z < 64 { y % 4 * 64 + z }

  function Byte0(s: Bytes): Option<Byte>
    requires |s| >= 2
  {
    var x, y := Value(s[0]), Value(s[1]);
    if x.None? || y.None? then None else Some(B0(x.value, y.value))
  }

  function Byte1(s: Bytes): Option<Byte>
    requires |s| >= 3
  {
    var y, z := Value(s[1]), Value(s[2]);
    if y.None? || z.None? then None else Some(B1(y.value, z.value))
  }

  function Byte2(s: Bytes): Option<Byte>
    requires |s| >= 4
  {
    var z, w := Value(s[2]), Value(s[3]);
    if z.None? || w.None? then None else Some(B2(z.value, w.value))
  }

  function One(s: Bytes): Option<Bytes>
    requires |s| >= 2
  {
    var a := Byte0(s);
    if a.None? then None else Some([a.value])
  }

  function Two(s: Bytes): Option<Bytes>
    requires |s| >= 3
  {
    var a, b := Byte0(s), Byte1(s);
    if a.None? || b.None? then None else Some([a.value, b.value])
  }

  function Three(s: Bytes): Option<Bytes>
    requires |s| >= 4
  {
    var a, b, c := Byte0(s), Byte1(s), Byte2(s);
    if a.None? || b.None? || c.None? then None else Some([a.value, b.value, c.value])
  }

  function Append(a: Option<Bytes>, b: Option<Bytes>): Option<Bytes> {
    if a.None? || b.None? then None else Some(a.value + b.value)
  }

  /** Padded input only: whole groups of four, padding in the last one. */
  function DecodePadded(s: Bytes): Option<Bytes> {
    if s == [] then Some([])
    else if |s| < 4 then None
    else if s[3] == PAD then
      if |s| != 4 then None else if s[2] == PAD then One(s) else Two(s)
    else Append(Three(s), DecodePadded(s[4..]))
  }

  /** Unpadded input only: the last group may be short, but not of length one. */
  function DecodeRaw(s: Bytes): Option<Bytes> {
    if s == [] then Some([])
    else if |s| == 1 then None
    else if |s| == 2 then One(s)
    else if |s| == 3 then Two(s)
    else Append(Three(s), DecodeRaw(s[4..]))
  }

  /** Both decoders skip line breaks. */
  function SkipBreaks(s: Bytes): Bytes {
    if s == [] then [] else (if s[0] == 10 || s[0] == 13 then [] else [s[0]]) + SkipBreaks(s[1..])
  }

  predicate Space(c: Byte) { 9 <= c <= 13 || c == 32 }

  function TrimRight(s: Bytes): Bytes {
    if s != [] && Space(s[|s| - 1]) then TrimRight(s[..|s| - 1]) else s
  }

  predicate LooksPadded(field: Bytes) {
    var t := TrimRight(field);
    t != [] && t[|t| - 1] == PAD
  }

  function Decode(field: Bytes): Option<Bytes> {
    if LooksPadded(field) then DecodePadded(SkipBreaks(field)) else DecodeRaw(SkipBreaks(field))
  }

  // ---- user name and password ----

  datatype Auth = Auth(username: Bytes, password: Bytes)

  function FirstColon(s: Bytes): (i: nat)
    ensures i <= |s| && COLON !in s[..i] && (i < |s| ==> s[i] == COLON)
  {
    if s == [] || s[0] == COLON then 0
    else
      var i := 1 + FirstColon(s[1..]);
      assert s[..i] == [s[0]] + s[1..][..i - 1];
      i
  }

  function EncodeAuth(a: Auth): Bytes {
    Encode(a.username + [COLON] + a.password)
  }

  function DecodeAuth(field: Bytes): Option<Auth> {
    var decoded := Decode(field);
    if decoded.None? then None
    else
      var s, i := decoded.value, FirstColon(decoded.value);
      if i == |s| then None else Some(Auth(s[..i], s[i + 1..]))
  }

  // ---- round trips ----

  /** Without its padding: what an encoder that does not pad writes. */
  function Unpadded(s: Bytes): Bytes {
    if s != [] && s[|s| - 1] == PAD then Unpadded(s[..|s| - 1]) else s
  }

  /** Three bytes cut into four sextets and put together again. */
  lemma Sextets(a: Byte, b: Byte, c: Byte)
    ensures B0(S0(a), S1(a, b)) == a && B1(S1(a, b), S2(b, c)) == b && B2(S2(b, c), S3(c)) == c
  {
    assert S1(a, b) / 16 == a % 4 && S1(a, b) % 16 == b / 16;
    assert S2(b, c) / 4 == b % 16 && S2(b, c) % 4 == c / 64;
  }

  lemma EncodeUnfolds(b: Bytes)
    requires |b| >= 3
    ensures Encode(b) ==
            [Letter(S0(b[0])), Letter(S1(b[0], b[1])), Letter(S2(b[1], b[2])), Letter(S3(b[2]))] + Encode(b[3..])
  {
  }

  lemma DropFour(w: Byte, x: Byte, y: Byte, z: Byte, rest: Bytes)
    ensures ([w, x, y, z] + rest)[4..] == rest
  {
  }

  lemma Group3(b: Bytes)
    requires |b| >= 3
    ensures Three(Encode(b)) == Some([b[0], b[1], b[2]]) && Encode(b)[3] != PAD && Encode(b)[4..] == Encode(b[3..])
  {
    hide Encode, Letter, Value, Space, S0, S1, S2, S3, B0, B1, B2;
    EncodeUnfolds(b);
    Sextets(b[0], b[1], b[2]);
    ValueOfLetter(S0(b[0]));
    ValueOfLetter(S1(b[0], b[1]));
    ValueOfLetter(S2(b[1], b[2]));
    ValueOfLetter(S3(b[2]));
    DropFour(Letter(S0(b[0])), Letter(S1(b[0], b[1])), Letter(S2(b[1], b[2])), Letter(S3(b[2])), Encode(b[3..]));
  }

  lemma Tail2(b: Bytes)
    requires |b| == 2
    ensures Two(Encode(b)) == Some(b) && Encode(b)[2] != PAD && Two(Encode(b)[..3]) == Some(b)
  {
    hide Letter, Value, Space, S0, S1, S2, S3, B0, B1, B2;
    Sextets(b[0], b[1], 0);
    ValueOfLetter(S0(b[0]));
    ValueOfLetter(S1(b[0], b[1]));
    ValueOfLetter(S2(b[1], 0));
    assert b == [b[0], b[1]];
  }

  lemma Tail1(b: Bytes)
    requires |b| == 1
    ensures One(Encode(b)) == Some(b) && One(Encode(b)[..2]) == Some(b) && Encode(b)[1] != PAD
  {
    hide Letter, Value, Space, S0, S1, S2, S3, B0, B1, B2;
    Sextets(b[0], 0, 0);
    ValueOfLetter(S0(b[0]));
    ValueOfLetter(S1(b[0], 0));
    assert b == [b[0]];
  }

  lemma {:induction false} PaddedRoundTrip(b: Bytes)
    ensures DecodePadded(Encode(b)) == Some(b)
  {
    if |b| == 1 {
      Tail1(b);
    } else if |b| == 2 {
      Tail2(b);
    } else if |b| >= 3 {
      Group3(b);
      PaddedRoundTrip(b[3..]);
      assert b == [b[0], b[1], b[2]] + b[3..];
    }
  }

  lemma PadNoSpace()
    ensures !Space(PAD)
  {
  }

  /** The unpadded text is the encoding cut to length. */
  function CutLength(n: nat): nat {
    n / 3 * 4 + if n % 3 == 0 then 0 else n % 3 + 1
  }

  lemma {:induction false} EncodeShape(b: Bytes)
    ensures |Encode(b)| == (|b| + 2) / 3 * 4
    ensures CutLength(|b|) <= |Encode(b)|
    ensures forall i :: 0 <= i < |Encode(b)| ==> !Space(Encode(b)[i]) && (Encode(b)[i] == PAD <==> i >= CutLength(|b|))
  {
    hide Letter, Value, Space, S0, S1, S2, S3;
    PadNoSpace();
    if |b| == 1 {
      ValueOfLetter(S0(b[0]));
      ValueOfLetter(S1(b[0], 0));
    } else if |b| == 2 {
      ValueOfLetter(S0(b[0]));
      ValueOfLetter(S1(b[0], b[1]));
      ValueOfLetter(S2(b[1], 0));
    } else if |b| >= 3 {
      EncodeShape(b[3..]);
      var e, rest := Encode(b), Encode(b[3..]);
      ValueOfLetter(S0(b[0]));
      ValueOfLetter(S1(b[0], b[1]));
      ValueOfLetter(S2(b[1], b[2]));
      ValueOfLetter(S3(b[2]));
      assert CutLength(|b|) == 4 + CutLength(|b[3..]|);
      assert forall i :: 4 <= i < |e| ==> e[i] == rest[i - 4];
    }
  }

  lemma SameThree(s: Bytes, k: nat)
    requires 4 <= k <= |s|
    ensures Three(s[..k]) == Three(s)
  {
    hide Value;
  }

  lemma {:induction false} RawRoundTrip(b: Bytes)
    ensures CutLength(|b|) <= |Encode(b)| && DecodeRaw(Encode(b)[..CutLength(|b|)]) == Some(b)
  {
    hide Letter, Value, Space, Byte0, Byte1, Byte2;
    EncodeShape(b);
    if |b| == 1 {
      Tail1(b);
    } else if |b| == 2 {
      Tail2(b);
    } else if |b| >= 3 {
      Group3(b);
      RawRoundTrip(b[3..]);
      var k := CutLength(|b|);
      assert k == 4 + CutLength(|b[3..]|);
      var e := Encode(b)[..k];
      assert e[4..] == Encode(b[3..])[..k - 4];
      SameThree(Encode(b), k);
      assert b == [b[0], b[1], b[2]] + b[3..];
    }
  }

  lemma {:induction false} NothingToSkip(s: Bytes)
    requires forall i :: 0 <= i < |s| ==> !Space(s[i])
    ensures SkipBreaks(s) == s && TrimRight(s) == s
  {
    if s != [] {
      NothingToSkip(s[1..]);
      assert s == [s[0]] + s[1..];
    }
  }

  lemma {:induction false} UnpaddedIsCut(s: Bytes, k: nat)
    requires k <= |s| && forall i :: 0 <= i < |s| ==> (s[i] == PAD <==> i >= k)
    ensures Unpadded(s) == s[..k]
    decreases |s|
  {
    if k < |s| {
      UnpaddedIsCut(s[..|s| - 1], k);
      assert s[..|s| - 1][..k] == s[..k];
    } else {
      assert s[..k] == s;
    }
  }

  /** The dispatch on a trailing `=` picks the decoder that fits, for all three lengths modulo three. */
  lemma DispatchRoundTrip(b: Bytes)
    ensures Decode(Encode(b)) == Some(b)
    ensures Decode(Unpadded(Encode(b))) == Some(b)
  {
    hide Encode, DecodePadded, DecodeRaw, SkipBreaks, TrimRight, Space, Unpadded;
    var e, k := Encode(b), CutLength(|b|);
    EncodeShape(b);
    PaddedRoundTrip(b);
    RawRoundTrip(b);
    NothingToSkip(e);
    UnpaddedIsCut(e, k);
    NothingToSkip(e[..k]);
    if |b| % 3 == 0 {
      assert k == |e|;
      assert e[..k] == e;
    }
  }

  lemma {:induction false} SkipAppend(s: Bytes, c: Byte)
    ensures SkipBreaks(s + [c]) == SkipBreaks(s) + SkipBreaks([c])
  {
    hide Space;
    if s != [] {
      assert (s + [c])[0] == s[0] && (s + [c])[1..] == s[1..] + [c];
      SkipAppend(s[1..], c);
    } else {
      assert s + [c] == [c];
    }
  }

  lemma TrimAppend(s: Bytes, c: Byte)
    requires Space(c)
    ensures TrimRight(s + [c]) == TrimRight(s)
  {
    hide Space;
    var t := s + [c];
    assert t[|t| - 1] == c && t[..|t| - 1] == s;
  }

  lemma BreakIsSkipped(c: Byte)
    requires c == 10 || c == 13
    ensures SkipBreaks([c]) == [] && Space(c)
  {
    assert [c][1..] == [];
  }

  lemma SkipTrailing(s: Bytes, c: Byte)
    requires c == 10 || c == 13
    requires forall i :: 0 <= i < |s| ==> !Space(s[i])
    ensures SkipBreaks(s + [c]) == s && TrimRight(s + [c]) == s
  {
    hide SkipBreaks, TrimRight, Space;
    NothingToSkip(s);
    BreakIsSkipped(c);
    SkipAppend(s, c);
    TrimAppend(s, c);
  }

  /** A line break after the field changes neither the dispatch nor what is decoded. */
  lemma TrailingBreak(b: Bytes, c: Byte)
    requires c == 10 || c == 13
    ensures Decode(Encode(b) + [c]) == Some(b)
    ensures Decode(Unpadded(Encode(b)) + [c]) == Some(b)
  {
    hide Encode, DecodePadded, DecodeRaw, SkipBreaks, TrimRight, Space, Unpadded;
    var e, k := Encode(b), CutLength(|b|);
    EncodeShape(b);
    UnpaddedIsCut(e, k);
    SkipTrailing(e, c);
    SkipTrailing(e[..k], c);
    NothingToSkip(e);
    NothingToSkip(e[..k]);
    DispatchRoundTrip(b);
  }

  // ---- what else is decoded ----

  /** Three bytes put together from four sextets and cut again. */
  lemma SextetsBack(w: nat, x: nat, y: nat, z: nat)
    requires w < 64 && x < 64 && y < 64 && z < 64
    ensures S0(B0(w, x)) == w && S1(B0(w, x), B1(x, y)) == x
    ensures S2(B1(x, y), B2(y, z)) == y && S3(B2(y, z)) == z
  {
    assert B0(w, x) / 4 == w && B0(w, x) % 4 == x / 16;
    assert B1(x, y) / 16 == x % 16 && B1(x, y) % 16 == y / 4;
    assert B2(y, z) / 64 == y % 4 && B2(y, z) % 64 == z;
  }

  lemma GroupBack(s: Bytes)
    requires |s| >= 4 && Three(s).Some?
    ensures |Three(s).value| == 3
    ensures var b := Three(s).value;
            s[..4] == [Letter(S0(b[0])), Letter(S1(b[0], b[1])), Letter(S2(b[1], b[2])), Letter(S3(b[2]))]
  {
    hide Letter, S0, S1, S2, S3, B0, B1, B2;
    SextetsBack(Value(s[0]).value, Value(s[1]).value, Value(s[2]).value, Value(s[3]).value);
  }

  /**
   * Whatever the padded decoder accepts has the length of the encoding of what it gives, and is that encoding in all
   * whole groups; only the unused bits of a last group may differ.
   */
  lemma {:induction false} DecodedIsEncoded(s: Bytes, b: Bytes)
    requires DecodePadded(s) == Some(b)
    ensures |s| == |Encode(b)| && |b| / 3 * 4 <= |s|
    ensures forall i :: 0 <= i < |b| / 3 * 4 ==> s[i] == Encode(b)[i]
  {
    hide Letter, Value, S0, S1, S2, S3, B0, B1, B2, Byte0, Byte1, Byte2;
    if s != [] && s[3] != PAD {
      var group, rest := Three(s).value, DecodePadded(s[4..]).value;
      GroupBack(s);
      DecodedIsEncoded(s[4..], rest);
      assert b[3..] == rest;
      EncodeUnfolds(b);
      assert |b| / 3 * 4 == 4 + |rest| / 3 * 4;
      forall i | 0 <= i < |b| / 3 * 4
        ensures s[i] == Encode(b)[i]
      {
        if i < 4 { assert s[i] == s[..4][i]; } else { assert s[i] == s[4..][i - 4]; }
      }
    }
  }

  /** The same for the unpadded decoder and the encoding without its padding. */
  lemma {:induction false} RawDecodedIsEncoded(s: Bytes, b: Bytes)
    requires DecodeRaw(s) == Some(b)
    ensures |s| == CutLength(|b|) <= |Encode(b)| && |b| / 3 * 4 <= |s|
    ensures forall i :: 0 <= i < |b| / 3 * 4 ==> s[i] == Encode(b)[i]
  {
    hide Letter, Value, S0, S1, S2, S3, B0, B1, B2, Byte0, Byte1, Byte2;
    EncodeShape(b);
    if |s| >= 4 {
      var rest := DecodeRaw(s[4..]).value;
      GroupBack(s);
      RawDecodedIsEncoded(s[4..], rest);
      assert b[3..] == rest;
      EncodeUnfolds(b);
      assert |b| / 3 * 4 == 4 + |rest| / 3 * 4;
      forall i | 0 <= i < |b| / 3 * 4
        ensures s[i] == Encode(b)[i]
      {
        if i < 4 { assert s[i] == s[..4][i]; } else { assert s[i] == s[4..][i - 4]; }
      }
    }
  }

  lemma {:induction false} FirstColonOf(u: Bytes, p: Bytes)
    ensures COLON !in u ==> FirstColon(u + [COLON] + p) == |u|
    ensures COLON in u ==> FirstColon(u + [COLON] + p) < |u|
  {
    var s := u + [COLON] + p;
    if u != [] {
      assert s[1..] == u[1..] + [COLON] + p;
      assert u == [u[0]] + u[1..];
      FirstColonOf(u[1..], p);
    }
  }

  /** A field is a pair exactly if what it encodes has a colon; otherwise it is an error. */
  lemma PairIffColon(b: Bytes)
    ensures DecodeAuth(Encode(b)).Some? <==> COLON in b
    ensures DecodeAuth(Unpadded(Encode(b))).Some? <==> COLON in b
  {
    hide Encode, Decode, Unpadded;
    DispatchRoundTrip(b);
    assert b[..|b|] == b;
  }

  /** Decoding an encoded pair always gives a pair, and the same one exactly when the user name has no colon. */
  lemma AuthRoundTrip(a: Auth)
    ensures DecodeAuth(EncodeAuth(a)).Some?
    ensures DecodeAuth(EncodeAuth(a)) == Some(a) <==> COLON !in a.username
    ensures DecodeAuth(Unpadded(EncodeAuth(a))) == DecodeAuth(EncodeAuth(a))
  {
    hide Encode, Decode, Unpadded, FirstColon;
    var s := a.username + [COLON] + a.password;
    DispatchRoundTrip(s);
    FirstColonOf(a.username, a.password);
    if COLON !in a.username {
      assert s[..|a.username|] == a.username && s[|a.username| + 1..] == a.password;
    }
  }
}
