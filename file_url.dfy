/**
 * Turning a `file://` URL from an Apple Event into a path
 * (src-tauri/src/apple_events.rs, `file_url_to_path`): percent escapes are
 * decoded in one pass over the bytes, and the result must be UTF-8.
 *
 * The URL is given as its UTF-8 bytes; the path is the decoded bytes.
 */
module FileUrl {
  import opened Common

  newtype byte = x: int | 0 <= x < 256

  const Percent: byte := 37
  const Plus: byte := 43

  /** `"file://"` as bytes. */
  const FilePrefix: seq<byte> := [102, 105, 108, 101, 58, 47, 47]

  predicate IsContinuation(b: byte)
  {
    0x80 <= b <= 0xBF
  }

  /** The value of one ASCII hexadecimal digit, in either case. */
  function HexValue(c: byte): (r: Option<byte>)
    ensures r.Some? ==> r.value < 16
  {
    if 48 <= c <= 57 then Some(c - 48)
    else if 97 <= c <= 102 then Some(c - 87)
    else if 65 <= c <= 70 then Some(c - 55)
    else None
  }

  /**
   * `u8::from_str_radix` over the two bytes after a `%`, base 16: two hex
   * digits, or a `+` sign and one hex digit. Bytes that are not UTF-8 become
   * the empty string there, which does not parse either.
   */
  function ParseHex2(a: byte, b: byte): Option<byte>
  {
    if a == Plus then HexValue(b)
    else if HexValue(a).Some? && HexValue(b).Some? then Some(HexValue(a).value * 16 + HexValue(b).value)
    else None
  }

  /** The decoding loop: a `%` with two parsable bytes after it becomes one byte, anything else is copied. */
  function Decode(raw: seq<byte>): (r: seq<byte>)
    ensures |r| <= |raw|
  {
    if raw == [] then []
    else if raw[0] == Percent && |raw| > 2 && ParseHex2(raw[1], raw[2]).Some? then
      [ParseHex2(raw[1], raw[2]).value] + Decode(raw[3..])
    else [raw[0]] + Decode(raw[1..])
  }

  /** The length of the UTF-8 sequence that starts `b`, or 0 when it is not well formed (RFC 3629, section 4). */
  function CharLength(b: seq<byte>): (n: nat)
    requires |b| > 0
    ensures n <= 4 && n <= |b|
  {
    var b0 := b[0];
    if b0 < 0x80 then 1
    else if 0xC2 <= b0 <= 0xDF then
      if |b| >= 2 && IsContinuation(b[1]) then 2 else 0
    else if 0xE0 <= b0 <= 0xEF then
      var lo: byte := if b0 == 0xE0 then 0xA0 else 0x80;
      var hi: byte := if b0 == 0xED then 0x9F else 0xBF;
      if |b| >= 3 && lo <= b[1] <= hi && IsContinuation(b[2]) then 3 else 0
    else if 0xF0 <= b0 <= 0xF4 then
      var lo: byte := if b0 == 0xF0 then 0x90 else 0x80;
      var hi: byte := if b0 == 0xF4 then 0x8F else 0xBF;
      if |b| >= 4 && lo <= b[1] <= hi && IsContinuation(b[2]) && IsContinuation(b[3]) then 4 else 0
    else 0
  }

  /** `String::from_utf8` succeeds: the bytes are a sequence of well-formed UTF-8 characters. */
  predicate ValidUtf8(b: seq<byte>)
    decreases |b|
  {
    b == [] || (CharLength(b) > 0 && ValidUtf8(b[CharLength(b)..]))
  }

  predicate HasFilePrefix(url: seq<byte>)
  {
    |url| >= |FilePrefix| && url[..|FilePrefix|] == FilePrefix
  }

  /** `file_url_to_path`: `None` without the prefix or when the decoded bytes are not UTF-8. */
  function FileUrlToPathSpec(url: seq<byte>): Option<seq<byte>>
  {
    if !HasFilePrefix(url) then None
    else
      var decoded := Decode(url[|FilePrefix|..]);
      if ValidUtf8(decoded) then Some(decoded) else None
  }

  /** `file_url_to_path`. */
  method FileUrlToPath(url: seq<byte>) returns (r: Option<seq<byte>>)
    ensures r == FileUrlToPathSpec(url)
  {
    if !HasFilePrefix(url) {
      return None;
    }
    var raw := url[|FilePrefix|..];
    var bytes: seq<byte> := [];
    var i := 0;
    while i < |raw|
      invariant 0 <= i <= |raw|
      invariant bytes + Decode(raw[i..]) == Decode(raw)
    {
      if raw[i] == Percent && i + 2 < |raw| {
        var parsed := ParseHex2(raw[i + 1], raw[i + 2]);
        if parsed.Some? {
          DecodeEscapeAt(raw, i);
          ConcatAssoc(bytes, [parsed.value], Decode(raw[i + 3..]));
          bytes := bytes + [parsed.value];
          i := i + 3;
          continue;
        }
      }
      DecodeByteAt(raw, i);
      ConcatAssoc(bytes, [raw[i]], Decode(raw[i + 1..]));
      bytes := bytes + [raw[i]];
      i := i + 1;
    }
    assert raw[i..] == [];
    assert bytes == Decode(raw);
    if ValidUtf8(bytes) {
      return Some(bytes);
    }
    return None;
  }

  /** A parsable escape at `i` decodes to its one byte. */
  lemma DecodeEscapeAt(raw: seq<byte>, i: nat)
    requires i + 2 < |raw| && raw[i] == Percent && ParseHex2(raw[i + 1], raw[i + 2]).Some?
    ensures Decode(raw[i..]) == [ParseHex2(raw[i + 1], raw[i + 2]).value] + Decode(raw[i + 3..])
  {
    assert raw[i..][3..] == raw[i + 3..];
  }

  /** Any other byte at `i` is copied. */
  lemma DecodeByteAt(raw: seq<byte>, i: nat)
    requires i < |raw|
    requires !(raw[i] == Percent && i + 2 < |raw| && ParseHex2(raw[i + 1], raw[i + 2]).Some?)
    ensures Decode(raw[i..]) == [raw[i]] + Decode(raw[i + 1..])
  {
    assert raw[i..][1..] == raw[i + 1..];
  }

  /** Bytes without a `%` decode to themselves. */
  lemma {:induction false} DecodeWithoutPercent(raw: seq<byte>)
    requires Percent !in raw
    ensures Decode(raw) == raw
  {
    if raw != [] {
      assert raw[1..] == raw[1..];
      DecodeWithoutPercent(raw[1..]);
    }
  }

  /** Removing ASCII bytes from the front keeps UTF-8 well formed. */
  lemma {:induction false} AsciiPrefixValid(p: seq<byte>, rest: seq<byte>)
    requires forall k :: 0 <= k < |p| ==> p[k] < 0x80
    requires ValidUtf8(p + rest)
    ensures ValidUtf8(rest)
  {
    if p != [] {
      var w := p + rest;
      assert CharLength(w) == 1;
      assert w[1..] == p[1..] + rest;
      AsciiPrefixValid(p[1..], rest);
    } else {
      assert p + rest == rest;
    }
  }

  /**
   * A URL without the prefix gives no path; a URL (valid UTF-8, as a Rust
   * `&str` is) with no `%` after the prefix gives the text after the prefix.
   */
  lemma FileUrlToPathFacts(url: seq<byte>)
    ensures !HasFilePrefix(url) ==> FileUrlToPathSpec(url) == None
    ensures HasFilePrefix(url) && ValidUtf8(url) && Percent !in url[|FilePrefix|..] ==>
              FileUrlToPathSpec(url) == Some(url[|FilePrefix|..])
  {
    if HasFilePrefix(url) && ValidUtf8(url) && Percent !in url[|FilePrefix|..] {
      var rest := url[|FilePrefix|..];
      DecodeWithoutPercent(rest);
      assert url == FilePrefix + rest;
      AsciiPrefixValid(FilePrefix, rest);
    }
  }

  /** The upper-case hexadecimal digit for a value below 16. */
  function HexDigit(v: byte): (c: byte)
    requires v < 16
    ensures HexValue(c) == Some(v) && c != Plus
  {
    if v < 10 then 48 + v else 55 + v
  }

  /** Percent-encoding every byte, as `%XY`. */
  function PercentEncode(b: seq<byte>): (r: seq<byte>)
    ensures |r| == 3 * |b|
  {
    if b == [] then []
    else [Percent, HexDigit(b[0] / 16), HexDigit(b[0] % 16)] + PercentEncode(b[1..])
  }

  /**
   * Decoding undoes percent-encoding, whatever the bytes, `%` included:
   * each escape is decoded once and its result is never read again.
   */
  lemma {:induction false} DecodeEncode(b: seq<byte>)
    ensures Decode(PercentEncode(b)) == b
  {
    if b != [] {
      var e := PercentEncode(b);
      assert e[3..] == PercentEncode(b[1..]);
      assert ParseHex2(e[1], e[2]) == Some(b[0]);
      DecodeEncode(b[1..]);
    }
  }

  /** `%2541` decodes to `%41`, not to `A`: a decoded `%` does not start another escape. */
  lemma SinglePassExample()
    ensures Decode([Percent, 50, 53, 52, 49]) == [Percent, 52, 49]
  {
    var raw: seq<byte> := [Percent, 50, 53, 52, 49];
    assert ParseHex2(50, 53) == Some(37);
    assert raw[3..] == [52, 49];
    assert Decode([49]) == [49] by {
      assert Decode([]) == [];
    }
    assert [52, 49][1..] == [49];
  }

  /** `%+F` decodes to the byte 0x0F, because the radix parser accepts a leading `+`. */
  lemma PlusSignExample()
    ensures Decode([Percent, Plus, 70]) == [0x0F]
  {
    var raw: seq<byte> := [Percent, Plus, 70];
    assert ParseHex2(Plus, 70) == Some(15);
    assert raw[3..] == [];
  }

  /** A `%` too close to the end, or before bytes that do not parse, is copied as it is. */
  lemma LiteralPercent(raw: seq<byte>)
    requires |raw| > 0 && raw[0] == Percent
    requires |raw| <= 2 || ParseHex2(raw[1], raw[2]).None?
    ensures Decode(raw) == [Percent] + Decode(raw[1..])
  {
  }
}
