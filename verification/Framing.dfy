/** Decimal numbers as strconv and fmt read and print them. */
module Decimal {
  import opened Types

  const MAX_INT := 0x7FFF_FFFF_FFFF_FFFF  // int is 64 bits wide

  predicate IsDigit(c: char) {
    '0' <= c <= '9'
  }

  ghost predicate AllDigits(s: string) {
    forall i :: 0 <= i < |s| ==> IsDigit(s[i])
  }

  function DigitChar(d: int): (c: char)
    requires 0 <= d <= 9
    ensures IsDigit(c) && DigitValue(c) == d
  {
    (('0' as int) + d) as char
  }

  function DigitValue(c: char): (d: int)
    requires IsDigit(c)
    ensures 0 <= d <= 9
  {
    c as int - '0' as int
  }

  /** %d of a non-negative number. */
  function PrintNat(n: nat): (s: string)
    ensures s != [] && AllDigits(s)
    decreases n
  {
    if n < 10 then [DigitChar(n)] else PrintNat(n / 10) + [DigitChar(n % 10)]
  }

  /** %d. */
  function Print(n: int): string {
    if n < 0 then "-" + PrintNat(-n) else PrintNat(n)
  }

  function ParseNat(s: string): (r: Option<nat>) {
    if s == [] || !IsDigit(s[|s| - 1]) then None
    else if |s| == 1 then Some(DigitValue(s[0]))
    else match ParseNat(s[..|s| - 1])
      case Some(n) => Some(10 * n + DigitValue(s[|s| - 1]))
      case None => None
  }

  /** strconv.Atoi: an optional sign, digits, and a value that an int can hold. */
  function Atoi(s: string): Option<int> {
    if s != [] && s[0] == '-' then Fits(Negate(ParseNat(s[1..])))
    else Fits(if s != [] && s[0] == '+' then ParseNat(s[1..]) else ParseNat(s))
  }

  function Negate(r: Option<int>): Option<int> {
    if r.Some? then Some(-r.value) else None
  }

  function Fits(r: Option<int>): Option<int> {
    if r.Some? && -MAX_INT - 1 <= r.value <= MAX_INT then r else None
  }

  lemma {:induction false} ParsePrint(n: nat)
    ensures ParseNat(PrintNat(n)) == Some(n)
    decreases n
  {
    if n >= 10 {
      ParsePrint(n / 10);
      var s := PrintNat(n);
      assert s[..|s| - 1] == PrintNat(n / 10);
    }
  }

  /** Printing and parsing are inverse on every int. */
  lemma AtoiPrint(n: int)
    requires -MAX_INT - 1 <= n <= MAX_INT
    ensures Atoi(Print(n)) == Some(n)
  {
    hide PrintNat, ParseNat;
    if n < 0 {
      ParsePrint(-n);
      assert Print(n)[1..] == PrintNat(-n);
    } else {
      ParsePrint(n);
      assert IsDigit(PrintNat(n)[0]);
    }
  }

  function Zeros(k: nat): string {
    seq(k, _ => '0')
  }

  lemma {:induction false} ZerosAreZero(k: nat)
    requires k > 0
    ensures ParseNat(Zeros(k)) == Some(0)
    decreases k
  {
    assert Zeros(k)[..k - 1] == Zeros(k - 1);
    if k > 1 {
      ZerosAreZero(k - 1);
    }
  }

  lemma {:induction false} ParsePadded(k: nat, n: nat)
    ensures ParseNat(Zeros(k) + PrintNat(n)) == Some(n)
    decreases n
  {
    var s := Zeros(k) + PrintNat(n);
    if n >= 10 {
      ParsePadded(k, n / 10);
      assert s[..|s| - 1] == Zeros(k) + PrintNat(n / 10);
    } else {
      assert s[..|s| - 1] == Zeros(k);
      if k > 0 {
        ZerosAreZero(k);
      }
    }
  }

  lemma PaddedAppend(k: nat, m: nat, c: char) returns (j: nat)
    requires IsDigit(c)
    ensures Zeros(k) + PrintNat(m) + [c] == Zeros(j) + PrintNat(10 * m + DigitValue(c))
  {
    j := k;
    if m == 0 {
      assert Zeros(k) + PrintNat(0) == Zeros(k + 1);
      j := k + 1;
    } else {
      assert PrintNat(10 * m + DigitValue(c)) == PrintNat(m) + [c];
    }
  }

  lemma {:induction false} ParsedIsPadded(s: string) returns (k: nat)
    requires ParseNat(s).Some?
    ensures s == Zeros(k) + PrintNat(ParseNat(s).value)
    decreases |s|
  {
    if |s| == 1 {
      k := 0;
    } else {
      var front, last := s[..|s| - 1], s[|s| - 1];
      k := ParsedIsPadded(front);
      k := PaddedAppend(k, ParseNat(front).value, last);
      hide PrintNat, Zeros;
      assert s == front + [last];
    }
  }

  function Signed(sign: string, n: int): int {
    if sign == "-" then -n else n
  }

  lemma SignThenDigits(sign: string, digits: string, n: nat)
    requires sign in ["", "+", "-"] && digits != "" && IsDigit(digits[0]) && ParseNat(digits) == Some(n)
    ensures Atoi(sign + digits) == Fits(Some(Signed(sign, n)))
  {
    hide ParseNat;
    if sign == "" {
      assert sign + digits == digits;
    } else {
      assert (sign + digits)[0] == sign[0] && (sign + digits)[1..] == digits;
    }
  }

  /** An int is read from a decimal number with an optional sign and any leading zeros, if it fits into 64 bits. */
  lemma AtoiReads(sign: string, k: nat, n: nat)
    requires sign in ["", "+", "-"]
    ensures Atoi(sign + (Zeros(k) + PrintNat(n))) == Fits(Some(Signed(sign, n)))
  {
    ParsePadded(k, n);
    var digits := Zeros(k) + PrintNat(n);
    assert IsDigit(digits[0]);
    SignThenDigits(sign, digits, n);
  }

  /** And from nothing else. */
  lemma OnlyNumbersAreRead(s: string) returns (sign: string, k: nat, n: nat)
    requires Atoi(s).Some?
    ensures sign in ["", "+", "-"] && s == sign + (Zeros(k) + PrintNat(n)) && Atoi(s) == Some(Signed(sign, n))
  {
    assert s != "";
    hide ParseNat, PrintNat;
    sign := if s[0] == '-' then "-" else if s[0] == '+' then "+" else "";
    var digits := if sign == "" then s else s[1..];
    n := ParseNat(digits).value;
    k := ParsedIsPadded(digits);
    assert s == sign + digits;
  }

  lemma PrintInjective(m: int, n: int)
    requires Print(m) == Print(n)
    ensures m == n
  {
    hide PrintNat, ParseNat;
    if m < 0 {
      assert Print(m)[0] == '-';
      assert n >= 0 ==> IsDigit(Print(n)[0]);
      assert Print(m)[1..] == PrintNat(-m) && Print(n)[1..] == PrintNat(-n);
      ParsePrint(-m);
      ParsePrint(-n);
    } else {
      assert IsDigit(PrintNat(m)[0]);
      ParsePrint(m);
      ParsePrint(n);
    }
  }

  lemma PrintHasNo(c: char, n: int)
    requires !IsDigit(c) && c != '-'
    ensures c !in Print(n)
  {
  }

  /** The last separator splits a string in one way only. */
  lemma SplitAtLast(a: string, b: string, c: string, d: string, sep: char)
    requires a + [sep] + b == c + [sep] + d && sep !in b && sep !in d
    ensures a == c && b == d
  {
    var s := a + [sep] + b;
    assert s[|a|] == sep && s[|c|] == sep;
    assert forall k :: |a| < k < |s| ==> s[k] == b[k - |a| - 1] != sep;
    assert forall k :: |c| < k < |s| ==> s[k] == d[k - |c| - 1] != sep;
    assert s[..|a|] == a && s[..|c|] == c;
    assert s[|a| + 1..] == b && s[|c| + 1..] == d;
  }
}

/** The wire framing. A Go string is a sequence of bytes; here it is a string with one char per byte. */
module Framing {
  import opened Types
  import opened Decimal

  const MARK := "~m~"
  const TAG := "~h~"

  predicate HasPrefix(s: string, p: string) {
    p <= s
  }

  /** strings.Index: where p first occurs in s, or -1. */
  function Index(s: string, p: string): (i: int)
    ensures i == -1 || (0 <= i <= |s| - |p| && p <= s[i..])
  {
    IndexFrom(s, p, 0)
  }

  function IndexFrom(s: string, p: string, from: nat): (i: int)
    requires from <= |s|
    ensures i == -1 || (from <= i <= |s| - |p| && p <= s[i..])
    decreases |s| - from
  {
    if p <= s[from..] then from else if from == |s| then -1 else IndexFrom(s, p, from + 1)
  }

  /** Index finds the first occurrence, and finds one if there is one. */
  lemma IndexIsFirst(s: string, p: string, j: int)
    requires 0 <= j <= |s| && p <= s[j..]
    ensures 0 <= Index(s, p) <= j
  {
    IndexFromIsFirst(s, p, 0, j);
  }

  lemma {:induction false} IndexFromIsFirst(s: string, p: string, from: nat, j: int)
    requires from <= j <= |s| && p <= s[j..]
    ensures from <= IndexFrom(s, p, from) <= j
    decreases |s| - from
  {
    if !(p <= s[from..]) {
      IndexFromIsFirst(s, p, from + 1, j);
    }
  }

  lemma IndexIs(s: string, p: string, i: nat)
    requires i <= |s| && p <= s[i..]
    requires forall j :: 0 <= j < i ==> !(p <= s[j..])
    ensures Index(s, p) == i
  {
    IndexIsFirst(s, p, i);
  }

  /** The frame of a body, with a length that may be off by `slack`. */
  function FrameWith(body: string, slack: nat): string {
    MARK + Print(|body| + slack) + MARK + body
  }

  /** encodeFrame, after the JSON encoding of the message. */
  function EncodeFrame(body: string): string {
    FrameWith(body, 0)
  }

  /** A parse either ends with the bodies found, or hits the slice bounds panic of raw[:n] with n < 0. */
  datatype Parse = Frames(bodies: seq<string>) | Panic

  function Prepend(body: string, rest: Parse): Parse {
    match rest
    case Frames(bodies) => Frames([body] + bodies)
    case Panic => Panic
  }

  /** One header: the number between the next two marks and the input after them. */
  datatype Header = End | Header(n: int, rest: string)

  function ReadHeader(raw: string): (h: Header)
    ensures h.Header? ==> |h.rest| <= |raw| - 7 && h.rest == raw[|raw| - |h.rest|..]
  {
    var start := Index(raw, MARK);
    if start == -1 then End
    else
      var after := raw[start + 3..];
      var end := Index(after, MARK);
      if end == -1 then End
      else match Atoi(after[..end])
        case None => End
        case Some(n) => Header(n, after[end + 3..])
  }

  /** Where a body announced with length n ends: one earlier if a mark starts at its last byte. */
  function BodyEnd(n: int, rest: string): (e: int)
    requires 0 <= n <= |rest|
    ensures 0 <= e <= n
  {
    if n > 0 && rest[n - 1] == '~' && HasPrefix(rest[n..], "m~") then n - 1 else n
  }

  /** decodeFrames as a function of its input and of json.Valid. */
  function Decode(raw: string, jsonValid: string -> bool): Parse
    decreases |raw|
  {
    match ReadHeader(raw)
    case End => Frames([])
    case Header(n, rest) =>
      if |rest| < n then Frames(if jsonValid(rest) then [rest] else [])
      else if n < 0 then Panic
      else Prepend(rest[..BodyEnd(n, rest)], Decode(rest[BodyEnd(n, rest)..], jsonValid))
  }

  /** The bodies in out, followed by what p found. */
  function Preceded(out: seq<string>, p: Parse): Parse {
    match p
    case Frames(bodies) => Frames(out + bodies)
    case Panic => Panic
  }

  lemma AfterPrepend(out: seq<string>, body: string, p: Parse)
    ensures Preceded(out, Prepend(body, p)) == Preceded(out + [body], p)
  {
    if p.Frames? {
      assert out + ([body] + p.bodies) == (out + [body]) + p.bodies;
    }
  }

  lemma EmptyInput(jsonValid: string -> bool)
    ensures Decode("", jsonValid) == Frames([])
  {
  }

  /** The first steps of the loop body, up to the slicing away of the header. */
  method NextHeader(raw0: string) returns (h: Header)
    ensures h == ReadHeader(raw0)
  {
    var raw := raw0;
    var start := Index(raw, MARK);
    if start == -1 {
      return End;
    }
    raw := raw[start + 3..];
    var end := Index(raw, MARK);
    if end == -1 {
      return End;
    }
    var n := Atoi(raw[..end]);
    if n.None? {
      return End;
    }
    raw := raw[end + 3..];
    return Header(n.value, raw);
  }

  lemma DecodeStep(raw: string, jsonValid: string -> bool)
    ensures Decode(raw, jsonValid)
         == match ReadHeader(raw)
            case End => Frames([])
            case Header(n, rest) =>
              if |rest| < n then Frames(if jsonValid(rest) then [rest] else [])
              else if n < 0 then Panic
              else Prepend(rest[..BodyEnd(n, rest)], Decode(rest[BodyEnd(n, rest)..], jsonValid))
  {
  }

  lemma PrecedeNothing(out: seq<string>)
    ensures Preceded(out, Frames([])) == Frames(out)
  {
    assert out + [] == out;
  }

  /** The loop, reslicing raw and appending to out. */
  method DecodeFrames(raw0: string, jsonValid: string -> bool) returns (r: Parse)
    ensures r == Decode(raw0, jsonValid)
  {
    var raw := raw0;
    var out: seq<string> := [];
    assert Decode(raw0, jsonValid) == Preceded(out, Decode(raw, jsonValid));
    EmptyInput(jsonValid);
    hide Index, Atoi, Decode, ReadHeader;
    while |raw| > 0
      invariant Decode(raw0, jsonValid) == Preceded(out, Decode(raw, jsonValid))
      decreases |raw|
    {
      DecodeStep(raw, jsonValid);
      PrecedeNothing(out);
      var h := NextHeader(raw);
      if h.End? {
        break;
      }
      raw := h.rest;
      if |raw| < h.n {
        if jsonValid(raw) {
          out := out + [raw];
        }
        return Frames(out);
      }
      if h.n > 0 && raw[h.n - 1] == '~' && HasPrefix(raw[h.n..], "m~") {
        AfterPrepend(out, raw[..h.n - 1], Decode(raw[h.n - 1..], jsonValid));
        out := out + [raw[..h.n - 1]];
        raw := raw[h.n - 1..];
        continue;
      }
      if h.n < 0 {
        return Panic;
      }
      AfterPrepend(out, raw[..h.n], Decode(raw[h.n..], jsonValid));
      out := out + [raw[..h.n]];
      raw := raw[h.n..];
    }
    PrecedeNothing(out);
    return Frames(out);
  }

  // ---------- round trip ----------

  /** A frame on the wire: its body, and by how much its length prefix exceeds the body. */
  datatype WireFrame = WireFrame(body: string, slack: nat)

  function OnWire(frames: seq<WireFrame>): string {
    if frames == [] then "" else FrameWith(frames[0].body, frames[0].slack) + OnWire(frames[1..])
  }

  /** What a reader should get: every body; the last one only if its length is exact or its body is valid JSON. */
  function Delivered(frames: seq<WireFrame>, jsonValid: string -> bool): seq<string> {
    if frames == [] then []
    else if |frames| == 1 && frames[0].slack > 0 && !jsonValid(frames[0].body) then []
    else [frames[0].body] + Delivered(frames[1..], jsonValid)
  }

  ghost predicate NoTilde(s: string) {
    forall i :: 0 <= i < |s| ==> s[i] != '~'
  }

  lemma MarkAfterNumber(d: string, t: string)
    requires NoTilde(d)
    ensures Index(d + MARK + t, MARK) == |d|
  {
    var s := d + MARK + t;
    assert s[|d|..] == MARK + t;
    forall j | 0 <= j < |d|
      ensures !(MARK <= s[j..])
    {
      assert s[j..][0] == d[j];
    }
    IndexIs(s, MARK, |d|);
  }

  lemma HeaderIs(d: string, n: int, rest: string)
    requires NoTilde(d) && Atoi(d) == Some(n)
    ensures ReadHeader(MARK + (d + MARK + rest)) == Header(n, rest)
  {
    hide Index, Atoi;
    var raw, after := MARK + (d + MARK + rest), d + MARK + rest;
    assert raw[0..] == raw && raw[3..] == after;
    IndexIs(raw, MARK, 0);
    MarkAfterNumber(d, rest);
    assert after[..|d|] == d && after[|d| + 3..] == rest;
  }

  lemma HeaderOfFrame(body: string, slack: nat, tail: string)
    requires |body| + slack <= MAX_INT
    ensures ReadHeader(FrameWith(body, slack) + tail) == Header(|body| + slack, body + tail)
  {
    hide Index, Atoi, ReadHeader, PrintNat;
    var d := Print(|body| + slack);
    AtoiPrint(|body| + slack);
    HeaderIs(d, |body| + slack, body + tail);
    assert FrameWith(body, slack) + tail == MARK + (d + MARK + (body + tail));
  }

  lemma DecodeOneFrame(f: WireFrame, tail: string, jsonValid: string -> bool)
    requires |f.body| + f.slack <= MAX_INT && f.slack <= 1 && MARK <= tail
    ensures Decode(FrameWith(f.body, f.slack) + tail, jsonValid) == Prepend(f.body, Decode(tail, jsonValid))
  {
    hide Index, Atoi, ReadHeader, Print;
    HeaderOfFrame(f.body, f.slack, tail);
    BodyEndsBeforeMark(f.body, f.slack, tail);
  }

  lemma BodyEndsBeforeMark(body: string, slack: nat, tail: string)
    requires slack <= 1 && MARK <= tail
    ensures var rest := body + tail;
            BodyEnd(|body| + slack, rest) == |body| && rest[..|body|] == body && rest[|body|..] == tail
  {
    var rest := body + tail;
    assert tail[0] == MARK[0] && tail[1] == MARK[1] && tail[2] == MARK[2];
    assert rest[|body|..] == tail && rest[|body|] == '~';
    assert rest[|body| + 1..] == tail[1..] && tail[1..][0] == 'm' && tail[1..][1] == '~';
  }

  lemma DecodeLastFrame(f: WireFrame, jsonValid: string -> bool)
    requires |f.body| + f.slack <= MAX_INT
    ensures Decode(FrameWith(f.body, f.slack), jsonValid)
            == Frames(if f.slack > 0 && !jsonValid(f.body) then [] else [f.body])
  {
    hide Index, Atoi, ReadHeader, Print;
    HeaderOfFrame(f.body, f.slack, "");
    assert FrameWith(f.body, f.slack) + "" == FrameWith(f.body, f.slack);
    assert f.body + "" == f.body;
    if f.slack == 0 {
      assert f.body[..|f.body|] == f.body && f.body[|f.body|..] == "";
      EmptyInput(jsonValid);
    }
  }

  lemma WireStartsWithMark(frames: seq<WireFrame>)
    requires frames != []
    ensures MARK <= OnWire(frames)
  {
  }

  /** Frames come back in order with their bodies, for lengths that are exact or, before another frame, one too
      large. */
  lemma {:induction false} DecodeWire(frames: seq<WireFrame>, jsonValid: string -> bool)
    requires forall i :: 0 <= i < |frames| ==> |frames[i].body| + frames[i].slack <= MAX_INT
    requires forall i :: 0 <= i < |frames| - 1 ==> frames[i].slack <= 1
    ensures Decode(OnWire(frames), jsonValid) == Frames(Delivered(frames, jsonValid))
  {
    hide Index, Atoi, ReadHeader, Decode, FrameWith;
    if frames == [] {
      EmptyInput(jsonValid);
    } else if |frames| == 1 {
      DecodeLastFrame(frames[0], jsonValid);
      assert OnWire(frames) == FrameWith(frames[0].body, frames[0].slack);
      assert Delivered(frames[1..], jsonValid) == [];
    } else {
      DecodeWire(frames[1..], jsonValid);
      WireStartsWithMark(frames[1..]);
      DecodeOneFrame(frames[0], OnWire(frames[1..]), jsonValid);
    }
  }

  /** decodeFrames undoes encodeFrame. */
  lemma DecodeEncode(body: string, jsonValid: string -> bool)
    requires |body| <= MAX_INT
    ensures Decode(EncodeFrame(body), jsonValid) == Frames([body])
  {
    var f := WireFrame(body, 0);
    DecodeWire([f], jsonValid);
    assert OnWire([f]) == EncodeFrame(body) + "";
    assert EncodeFrame(body) + "" == EncodeFrame(body);
    assert Delivered([f], jsonValid) == [body] + Delivered([], jsonValid);
  }

  function Bodies(frames: seq<WireFrame>): seq<string> {
    if frames == [] then [] else [frames[0].body] + Bodies(frames[1..])
  }

  /** Frames followed by anything that starts with a mark: their bodies, then whatever that parses to. */
  lemma {:induction false} DecodeWireThen(frames: seq<WireFrame>, tail: string, jsonValid: string -> bool)
    requires MARK <= tail
    requires forall i :: 0 <= i < |frames| ==> |frames[i].body| + frames[i].slack <= MAX_INT && frames[i].slack <= 1
    ensures Decode(OnWire(frames) + tail, jsonValid) == Preceded(Bodies(frames), Decode(tail, jsonValid))
  {
    hide Decode, FrameWith;
    if frames == [] {
      assert OnWire(frames) + tail == tail;
      AfterNothing(Decode(tail, jsonValid));
    } else {
      DecodeWireThen(frames[1..], tail, jsonValid);
      var rest := OnWire(frames[1..]) + tail;
      assert MARK <= rest by {
        if frames[1..] != [] {
          WireStartsWithMark(frames[1..]);
        } else {
          assert rest == tail;
        }
      }
      DecodeOneFrame(frames[0], rest, jsonValid);
      assert OnWire(frames) + tail == FrameWith(frames[0].body, frames[0].slack) + rest;
      PrependAfter(frames[0].body, Bodies(frames[1..]), Decode(tail, jsonValid));
    }
  }

  lemma AfterNothing(p: Parse)
    ensures Preceded([], p) == p
  {
    assert p.Frames? ==> [] + p.bodies == p.bodies;
  }

  lemma PrependAfter(body: string, out: seq<string>, p: Parse)
    ensures Prepend(body, Preceded(out, p)) == Preceded([body] + out, p)
  {
    assert p.Frames? ==> [body] + (out + p.bodies) == [body] + out + p.bodies;
  }

  lemma MarkAfterJunk(junk: string, t: string)
    requires Index(junk + MARK, MARK) == |junk|
    ensures Index(junk + MARK + t, MARK) == |junk|
  {
    var raw := junk + MARK + t;
    forall j | 0 <= j < |junk|
      ensures !(MARK <= raw[j..])
    {
      assert (junk + MARK)[j..][..3] == raw[j..][..3];
      if MARK <= (junk + MARK)[j..] {
        IndexIsFirst(junk + MARK, MARK, j);
      }
    }
    assert raw[|junk|..] == MARK + t;
    IndexIs(raw, MARK, |junk|);
  }

  /** What stands between two marks, whatever it is, is read as a length. */
  lemma BadHeader(s: string, t: string, jsonValid: string -> bool)
    requires Index(s + MARK, MARK) == |s| && (Atoi(s).None? || Atoi(s).value < 0)
    ensures Decode(MARK + (s + MARK + t), jsonValid) == if Atoi(s).None? then Frames([]) else Panic
  {
    hide Atoi, Index;
    var raw, after := MARK + (s + MARK + t), s + MARK + t;
    MarkAfterNumber("", after);
    assert "" + MARK + after == raw && raw[3..] == after;
    MarkAfterJunk(s, t);
    assert after[..|s|] == s;
  }

  /** After any frames, a length that is no number ends the parse with the bodies so far, and a negative one panics. */
  lemma BadLengthAfterFrames(frames: seq<WireFrame>, s: string, t: string, jsonValid: string -> bool)
    requires forall i :: 0 <= i < |frames| ==> |frames[i].body| + frames[i].slack <= MAX_INT && frames[i].slack <= 1
    requires Index(s + MARK, MARK) == |s| && (Atoi(s).None? || Atoi(s).value < 0)
    ensures Decode(OnWire(frames) + (MARK + (s + MARK + t)), jsonValid)
            == if Atoi(s).None? then Frames(Bodies(frames)) else Panic
  {
    hide Atoi, Index;
    BadHeader(s, t, jsonValid);
    DecodeWireThen(frames, MARK + (s + MARK + t), jsonValid);
    assert Bodies(frames) + [] == Bodies(frames);
  }

  /** Without two marks there is no header, and nothing is found. */
  lemma NoHeaderNoFrames(raw: string, jsonValid: string -> bool)
    requires Index(raw, MARK) == -1 || Index(raw[Index(raw, MARK) + 3..], MARK) == -1
    ensures Decode(raw, jsonValid) == Frames([])
  {
    hide Index, Atoi;
  }

  /** A frame whose length is in the input, with anything behind it: the parse takes that many bytes and goes on behind
      them; but if a mark starts with the last of them, it leaves that one to the next frame. */
  lemma DecodeFrameThen(body: string, tail: string, jsonValid: string -> bool)
    requires |body| <= MAX_INT
    ensures Decode(FrameWith(body, 0) + tail, jsonValid)
            == if body != "" && body[|body| - 1] == '~' && "m~" <= tail
               then Prepend(body[..|body| - 1], Decode("~" + tail, jsonValid))
               else Prepend(body, Decode(tail, jsonValid))
  {
    hide Index, Atoi, ReadHeader, FrameWith;
    HeaderOfFrame(body, 0, tail);
    var rest := body + tail;
    assert rest[|body|..] == tail && rest[..|body|] == body;
    if body != "" && body[|body| - 1] == '~' {
      assert rest[|body| - 1..] == "~" + tail && rest[..|body| - 1] == body[..|body| - 1];
    }
  }

  lemma HeadersAgree(raw: string, other: string)
    requires Index(raw, MARK) != -1 && Index(other, MARK) != -1
    requires raw[Index(raw, MARK) + 3..] == other[Index(other, MARK) + 3..]
    ensures ReadHeader(raw) == ReadHeader(other)
  {
    hide Index, Atoi;
  }

  /** Resynchronisation: whatever precedes the first mark is skipped. */
  lemma LeadingJunkIsSkipped(junk: string, t: string, jsonValid: string -> bool)
    requires Index(junk + MARK, MARK) == |junk|
    ensures Decode(junk + MARK + t, jsonValid) == Decode(MARK + t, jsonValid)
  {
    hide Index, Atoi, ReadHeader;
    MarkAfterJunk(junk, t);
    MarkAfterNumber("", t);
    assert "" + MARK + t == MARK + t;
    HeadersAgree(junk + MARK + t, MARK + t);
  }

  /** So frames need not follow each other: what stands between a frame and the next mark is skipped. */
  lemma DecodeResyncs(body: string, gap: string, t: string, jsonValid: string -> bool)
    requires |body| <= MAX_INT && Index(gap + MARK, MARK) == |gap|
    requires !(body != "" && body[|body| - 1] == '~' && "m~" <= gap + MARK + t)
    ensures Decode(FrameWith(body, 0) + (gap + MARK + t), jsonValid) == Prepend(body, Decode(MARK + t, jsonValid))
  {
    hide Index, Decode, FrameWith;
    DecodeFrameThen(body, gap + MARK + t, jsonValid);
    LeadingJunkIsSkipped(gap, t, jsonValid);
  }

  lemma EncodedStartsWithMark(body: string)
    ensures MARK <= EncodeFrame(body) && EncodeFrame(body) != "" && EncodeFrame(body)[0] == '~'
  {
    assert EncodeFrame(body)[0] == MARK[0];
  }

  lemma DecodeTwo(a: string, b: string, jsonValid: string -> bool)
    requires |a| <= MAX_INT && |b| <= MAX_INT
    ensures Decode(EncodeFrame(a) + EncodeFrame(b), jsonValid) == Frames([a, b])
  {
    hide Decode, FrameWith;
    EncodedStartsWithMark(b);
    DecodeOneFrame(WireFrame(a, 0), EncodeFrame(b), jsonValid);
    DecodeEncode(b, jsonValid);
    assert [a] + [b] == [a, b];
  }

  // ---------- safety and progress ----------

  /** out are disjoint parts of raw, in order, each behind at least the 7 bytes of a header. */
  ghost predicate Embeds(out: seq<string>, raw: string)
    decreases |out|
  {
    out == [] ||
    exists k :: 7 <= k <= |raw| - |out[0]| && out[0] <= raw[k..] && Embeds(out[1..], raw[k + |out[0]|..])
  }

  lemma {:induction false} DecodeEmbeds(raw: string, jsonValid: string -> bool)
    requires Decode(raw, jsonValid).Frames?
    ensures Embeds(Decode(raw, jsonValid).bodies, raw)
    decreases |raw|
  {
    hide Index, Atoi, ReadHeader;
    var h := ReadHeader(raw);
    if h.Header? {
      var k := |raw| - |h.rest|;
      if |h.rest| < h.n {
        EmbedsStep(raw, k, |h.rest|, []);
        assert h.rest[..|h.rest|] == h.rest;
      } else {
        var e := BodyEnd(h.n, h.rest);
        DecodeEmbeds(h.rest[e..], jsonValid);
        EmbedsStep(raw, k, e, Decode(h.rest[e..], jsonValid).bodies);
      }
    }
  }

  lemma EmbedsStep(raw: string, k: int, e: int, out: seq<string>)
    requires 7 <= k <= |raw| && 0 <= e <= |raw| - k
    requires Embeds(out, raw[k..][e..])
    ensures Embeds([raw[k..][..e]] + out, raw)
  {
    assert raw[k..][e..] == raw[k + e..];
    assert ([raw[k..][..e]] + out)[1..] == out;
  }

  function TotalLength(out: seq<string>): nat {
    if out == [] then 0 else |out[0]| + TotalLength(out[1..])
  }

  lemma EmbeddedTail(out: seq<string>, raw: string) returns (tail: string)
    requires out != [] && Embeds(out, raw)
    ensures Embeds(out[1..], tail) && |tail| <= |raw| - 7 - |out[0]|
  {
    var k :| 7 <= k <= |raw| - |out[0]| && out[0] <= raw[k..] && Embeds(out[1..], raw[k + |out[0]|..]);
    tail := raw[k + |out[0]|..];
  }

  /** The parts found and 7 bytes for each fit into the input. */
  lemma {:induction false} EmbeddedLength(out: seq<string>, raw: string)
    requires Embeds(out, raw)
    ensures TotalLength(out) + 7 * |out| <= |raw|
    decreases |out|
  {
    if out != [] {
      var tail := EmbeddedTail(out, raw);
      EmbeddedLength(out[1..], tail);
    }
  }

  /** The lengths read from the headers, up to the one at which the parse stops. */
  function Lengths(raw: string): seq<int>
    decreases |raw|
  {
    match ReadHeader(raw)
    case End => []
    case Header(n, rest) => [n] + if 0 <= n <= |rest| then Lengths(rest[BodyEnd(n, rest)..]) else []
  }

  ghost predicate AnyNegative(l: seq<int>) {
    exists i :: 0 <= i < |l| && l[i] < 0
  }

  lemma AnyNegativeFirst(n: int, l: seq<int>)
    ensures AnyNegative([n] + l) <==> n < 0 || AnyNegative(l)
  {
    var s := [n] + l;
    assert s[0] == n && forall i :: 0 <= i < |l| ==> s[i + 1] == l[i];
  }

  /** The slice panics exactly when a header carries a negative length. */
  lemma {:induction false} PanicIffNegativeLength(raw: string, jsonValid: string -> bool)
    ensures Decode(raw, jsonValid) == Panic <==> AnyNegative(Lengths(raw))
    decreases |raw|
  {
    hide Index, Atoi, ReadHeader;
    var h := ReadHeader(raw);
    if h.Header? {
      if 0 <= h.n <= |h.rest| {
        var tail := h.rest[BodyEnd(h.n, h.rest)..];
        PanicIffNegativeLength(tail, jsonValid);
        AnyNegativeFirst(h.n, Lengths(tail));
      } else {
        AnyNegativeFirst(h.n, []);
      }
    }
  }

  const MINUS := "~m~-"

  /** An input in which no mark is followed by a minus sign never panics. */
  lemma {:induction false} NoMinusNoPanic(raw: string, jsonValid: string -> bool)
    requires Index(raw, MINUS) == -1
    ensures Decode(raw, jsonValid).Frames?
    decreases |raw|
  {
    hide Index, Atoi, ReadHeader;
    var h := ReadHeader(raw);
    if h.Header? {
      if h.n < 0 {
        NegativeHasMinus(raw);
      } else if h.n <= |h.rest| {
        var e, k := BodyEnd(h.n, h.rest), |raw| - |h.rest|;
        assert h.rest[e..] == raw[k + e..];
        IndexOfSuffix(raw, MINUS, k + e);
        NoMinusNoPanic(h.rest[e..], jsonValid);
      }
    }
  }

  lemma IndexOfSuffix(s: string, p: string, k: int)
    requires 0 <= k <= |s| && Index(s, p) == -1
    ensures Index(s[k..], p) == -1
  {
    var i := Index(s[k..], p);
    if i != -1 {
      assert s[k..][i..] == s[k + i..];
      IndexIsFirst(s, p, k + i);
    }
  }

  lemma NegativeHasMinus(raw: string)
    requires ReadHeader(raw).Header? && ReadHeader(raw).n < 0
    ensures Index(raw, MINUS) != -1
  {
    hide Index, ParseNat;
    var start := Index(raw, MARK);
    var after := raw[start + 3..];
    var s := after[..Index(after, MARK)];
    assert s[0] == '-';
    assert raw[start..] == MARK + after;
    IndexIsFirst(raw, MINUS, start);
  }

  /** The smallest negative-length input. */
  lemma NegativeLengthPanics(jsonValid: string -> bool)
    ensures Decode("~m~-1~m~", jsonValid) == Panic
  {
    assert "-1"[1..] == "1" && Atoi("-1") == Some(-1);
    HeaderIs("-1", -1, "");
    assert "~m~-1~m~" == MARK + ("-1" + MARK + "");
  }

  // ---------- heartbeats ----------

  /** strings.IndexByte(rest, '~') and the slice before it. */
  function UpToTilde(s: string): (t: string)
    ensures NoTilde(t) && t <= s && (|t| == |s| || s[|t|] == '~')
  {
    if s == [] || s[0] == '~' then [] else [s[0]] + UpToTilde(s[1..])
  }

  /** heartbeatPong. */
  function Pong(raw: string): Option<string> {
    var i := Index(raw, TAG);
    if i < 0 then None else Some(EncodeFrame(TAG + UpToTilde(raw[i + 3..])))
  }

  lemma {:induction false} UpToTildeIs(num: string, tail: string)
    requires NoTilde(num) && (tail == "" || tail[0] == '~')
    ensures UpToTilde(num + tail) == num
    decreases |num|
  {
    if num != [] {
      assert (num + tail)[1..] == num[1..] + tail;
      UpToTildeIs(num[1..], tail);
    } else {
      assert num + tail == tail;
    }
  }

  /** The pong carries what stands between the first tag, wherever it is, and the next tilde or the end. */
  lemma PongOfTag(pre: string, num: string, tail: string)
    requires Index(pre + TAG, TAG) == |pre| && NoTilde(num) && (tail == "" || tail[0] == '~')
    ensures Pong(pre + TAG + num + tail) == Some(EncodeFrame(TAG + num))
  {
    var raw := pre + TAG + num + tail;
    hide EncodeFrame;
    forall j | 0 <= j < |pre|
      ensures !(TAG <= raw[j..])
    {
      assert (pre + TAG)[j..][..3] == raw[j..][..3];
      if TAG <= (pre + TAG)[j..] {
        IndexIsFirst(pre + TAG, TAG, j);
      }
    }
    assert raw[|pre|..] == TAG + (num + tail);
    IndexIs(raw, TAG, |pre|);
    assert raw[|pre| + 3..] == num + tail;
    UpToTildeIs(num, tail);
  }

  /** There is a pong exactly if there is a tag. */
  lemma PongIffTagged(raw: string)
    ensures Pong(raw).None? <==> forall j :: 0 <= j <= |raw| ==> !(TAG <= raw[j..])
  {
    hide EncodeFrame;
    forall j | 0 <= j <= |raw| && TAG <= raw[j..]
      ensures Pong(raw).Some?
    {
      IndexIsFirst(raw, TAG, j);
    }
  }

  /** A ping that heads a message is echoed unchanged, whatever frames follow it. */
  lemma PingIsEchoed(num: string, tail: string)
    requires NoTilde(num) && (tail == "" || tail[0] == '~')
    ensures Pong(EncodeFrame(TAG + num) + tail) == Some(EncodeFrame(TAG + num))
  {
    var d := Print(|TAG + num|);
    var raw := EncodeFrame(TAG + num) + tail;
    var n := |d| + 6;
    assert raw == MARK + d + MARK + TAG + (num + tail);
    forall j | 0 <= j < n
      ensures !(TAG <= raw[j..])
    {
      assert raw[j..][0] == raw[j] && raw[j..][1] == raw[j + 1];
    }
    assert raw[n..] == TAG + (num + tail);
    IndexIs(raw, TAG, n);
    assert raw[n + 3..] == num + tail;
    UpToTildeIs(num, tail);
  }

  /** Every pong is one well-formed heartbeat frame, and is its own pong. */
  lemma PongIsFixpoint(raw: string, jsonValid: string -> bool)
    requires Pong(raw).Some? && |raw| <= MAX_INT
    ensures var p := Pong(raw).value;
            && (exists num ::
                  NoTilde(num) && p == EncodeFrame(TAG + num) && Decode(p, jsonValid) == Frames([TAG + num]))
            && Pong(p) == Some(p)
  {
    var num := UpToTilde(raw[Index(raw, TAG) + 3..]);
    DecodeEncode(TAG + num, jsonValid);
    PingIsEchoed(num, "");
    assert EncodeFrame(TAG + num) + "" == EncodeFrame(TAG + num);
  }
}
