/** Percent-encoding and the URLs of path_utils.c (no codepage). */
module Paths {
  import opened Wrappers
  import opened Cache

  // ---------------------------------------------------------------- encoding

  predicate IsByte(c: char) { c as int < 256 }

  predicate IsBytes(s: string) { forall c :: c in s ==> IsByte(c) }

  predicate IsAlnum(c: char) {
    '0' <= c <= '9' || 'a' <= c <= 'z' || 'A' <= c <= 'Z'
  }

  /** The characters `url_encode` leaves alone: the unreserved ones of section 2.3 of RFC 3986,
      and ':' and '/'. */
  predicate Plain(c: char) {
    IsAlnum(c) || c == '-' || c == '_' || c == '.' || c == '~' || c == ':' || c == '/'
  }

  /** The unreserved characters of section 2.3 of RFC 3986. */
  predicate Unreserved(c: char) {
    c in {
      'A', 'B', 'C', 'D', 'E', 'F', 'G', 'H', 'I', 'J', 'K', 'L', 'M',
      'N', 'O', 'P', 'Q', 'R', 'S', 'T', 'U', 'V', 'W', 'X', 'Y', 'Z',
      'a', 'b', 'c', 'd', 'e', 'f', 'g', 'h', 'i', 'j', 'k', 'l', 'm',
      'n', 'o', 'p', 'q', 'r', 's', 't', 'u', 'v', 'w', 'x', 'y', 'z',
      '0', '1', '2', '3', '4', '5', '6', '7', '8', '9',
      '-', '.', '_', '~' }
  }

  /** Exactly these, ':' and '/' are left alone. */
  lemma PlainIsUnreserved(c: char)
    ensures Plain(c) <==> Unreserved(c) || c == ':' || c == '/'
  {
    if '0' <= c <= '9' { OneOf26(c as int - '0' as int); }
    if 'a' <= c <= 'z' { OneOf26(c as int - 'a' as int); }
    if 'A' <= c <= 'Z' { OneOf26(c as int - 'A' as int); }
  }

  lemma OneOf26(i: int)
    requires 0 <= i < 26
    ensures i in {0, 1, 2, 3, 4, 5, 6, 7, 8, 9, 10, 11, 12, 13, 14, 15, 16, 17, 18, 19, 20, 21, 22, 23, 24, 25}
  {
  }

  /** The encoded text has no other characters than these and '%', and starts with the character
      itself exactly when that is one of them. */
  lemma {:induction false} EncodedAlphabet(s: string)
    ensures forall c :: c in Encode(s) ==> Unreserved(c) || c == ':' || c == '/' || c == '%'
    ensures s != "" ==> (Encode(s)[0] == s[0] && s[0] != '%' <==> Unreserved(s[0]) || s[0] == ':' || s[0] == '/')
    decreases |s|
  {
    if s != "" {
      EncodedAlphabet(s[1..]);
      PlainIsUnreserved(s[0]);
      HexIsPlain(s[0] as int / 16);
      HexIsPlain(s[0] as int % 16);
    }
  }

  /** The digits of an escape are in lower case. */
  lemma HexIsPlain(code: nat)
    ensures Unreserved(ToHex(code)) && ('0' <= ToHex(code) <= '9' || 'a' <= ToHex(code) <= 'f')
  {
    PlainIsUnreserved(ToHex(code));
  }

  predicate IsPlain(s: string) { forall c :: c in s ==> Plain(c) }

  /** `to_hex` looks at the low four bits. */
  function ToHex(code: nat): (c: char)
    ensures HexValue(c) == Some(code % 16) && c != '%'
  {
    "0123456789abcdef"[code % 16]
  }

  function EncodeChar(c: char): string {
    if Plain(c) then [c] else ['%', ToHex(c as int / 16), ToHex(c as int % 16)]
  }

  function Encode(s: string): string {
    if s == "" then "" else EncodeChar(s[0]) + Encode(s[1..])
  }

  /** The value of a hexadecimal digit, in either case. */
  function HexValue(c: char): Option<nat> {
    if '0' <= c <= '9' then Some(c as int - '0' as int)
    else if 'a' <= c <= 'f' then Some(c as int - 'a' as int + 10)
    else if 'A' <= c <= 'F' then Some(c as int - 'A' as int + 10)
    else None
  }

  /** Percent-decoding (section 2.1 of RFC 3986); none for a malformed escape. */
  function Decode(s: string): Option<string>
    decreases |s|
  {
    if s == "" then Some("")
    else if s[0] != '%' then
      match Decode(s[1..]) case None => None case Some(rest) => Some([s[0]] + rest)
    else if |s| < 3 then None
    else
      match (HexValue(s[1]), HexValue(s[2]), Decode(s[3..]))
      case (Some(hi), Some(lo), Some(rest)) => Some([(hi * 16 + lo) as char] + rest)
      case _ => None
  }

  lemma {:induction false} DecodeEscape(hi: char, lo: char, rest: string)
    requires HexValue(hi).Some? && HexValue(lo).Some? && Decode(rest).Some?
    ensures Decode(['%', hi, lo] + rest) ==
            Some([(HexValue(hi).value * 16 + HexValue(lo).value) as char] + Decode(rest).value)
  {
    assert (['%', hi, lo] + rest)[3..] == rest;
  }

  lemma {:induction false} DecodePlain(c: char, rest: string)
    requires c != '%' && Decode(rest).Some?
    ensures Decode([c] + rest) == Some([c] + Decode(rest).value)
  {
    assert ([c] + rest)[1..] == rest;
  }

  lemma HexDigits(c: char)
    requires IsByte(c)
    ensures
      var hi, lo := ToHex(c as int / 16), ToHex(c as int % 16);
      HexValue(hi) == Some(c as int / 16) && HexValue(lo) == Some(c as int % 16) &&
      (c as int / 16 * 16 + c as int % 16) as char == c
  {
  }

  lemma DecodeChar(c: char, rest: string)
    requires IsByte(c) && Decode(rest).Some?
    ensures Decode(EncodeChar(c) + rest) == Some([c] + Decode(rest).value)
  {
    if Plain(c) {
      DecodePlain(c, rest);
    } else {
      HexDigits(c);
      DecodeEscape(ToHex(c as int / 16), ToHex(c as int % 16), rest);
    }
  }

  /** Decoding undoes encoding, for every byte string. */
  lemma {:induction false} DecodeEncode(s: string)
    requires IsBytes(s)
    ensures Decode(Encode(s)) == Some(s)
    decreases |s|
  {
    if s != "" {
      assert s[0] in s;
      DecodeEncode(s[1..]);
      DecodeChar(s[0], Encode(s[1..]));
      assert s == [s[0]] + s[1..];
    }
  }

  /** Encoding distributes over concatenation. */
  lemma {:induction false} EncodeAppend(a: string, b: string)
    ensures Encode(a + b) == Encode(a) + Encode(b)
    decreases |a|
  {
    if a == "" {
      assert a + b == b;
    } else {
      assert (a + b)[0] == a[0] && (a + b)[1..] == a[1..] + b;
      EncodeAppend(a[1..], b);
    }
  }

  /** The encoded text fits into the `3 * len + 1` bytes that are allocated, and encoding changes
      nothing exactly when every character is plain. */
  lemma {:induction false} EncodeLength(s: string)
    ensures |s| <= |Encode(s)| <= 3 * |s|
    ensures Encode(s) == s <==> IsPlain(s)
    ensures |Encode(s)| == |s| <==> IsPlain(s)
    decreases |s|
  {
    if s != "" {
      EncodeLength(s[1..]);
      assert s == [s[0]] + s[1..];
      assert IsPlain(s) <==> Plain(s[0]) && IsPlain(s[1..]);
    }
  }

  /** `url_encode`: the loop that fills the buffer. */
  method UrlEncode(str: string) returns (buf: array<char>, len: nat)
    ensures fresh(buf) && buf.Length == 3 * |str| + 1
    ensures len < buf.Length && buf[..len] == Encode(str) && buf[len] == '\0'
  {
    buf := new char[3 * |str| + 1](_ => '\0');
    len := 0;
    var i := 0;
    while i < |str|
      invariant 0 <= i <= |str| && len <= 3 * i
      invariant buf[..len] == Encode(str[..i])
    {
      EncodeOneMore(str, i);
      len := PutEncoded(buf, len, str[i]);
      i := i + 1;
    }
    assert str[..i] == str;
    buf[len] := '\0';
  }

  lemma EncodeOneMore(s: string, i: nat)
    requires i < |s|
    ensures Encode(s[..i + 1]) == Encode(s[..i]) + EncodeChar(s[i])
  {
    EncodeAppend(s[..i], [s[i]]);
    assert s[..i + 1] == s[..i] + [s[i]];
    assert [s[i]][1..] == "";
  }

  /** The body of the loop: one character, copied or escaped. */
  method PutEncoded(buf: array<char>, len: nat, c: char) returns (next: nat)
    requires len + 3 <= buf.Length
    modifies buf
    ensures len < next <= len + 3 && buf[..next] == old(buf[..len]) + EncodeChar(c)
  {
    if Plain(c) {
      buf[len] := c;
      next := len + 1;
    } else {
      buf[len], buf[len + 1], buf[len + 2] := '%', ToHex(c as int / 16), ToHex(c as int % 16);
      next := len + 3;
    }
    assert buf[..len] == old(buf[..len]);
  }

  // ---------------------------------------------------------------- URLs

  /** `get_file_name`. */
  function FileName(path: Path): string {
    Encode(match LastSlash(path) case None => path case Some(i) => path[i + 1..])
  }

  /** `get_full_path`. */
  function FullPath(host: string, path: Path): string
    requires path != ""
  {
    Encode(host + path[1..])
  }

  /** `get_fulldir_path`. */
  function FulldirPath(host: string, path: Path): string
    requires path != ""
  {
    Encode(host + path[1..] + (if |path| > 1 then "/" else ""))
  }

  /** `get_dir_path`: up to the last slash of the path without its first character. */
  function DirPath(host: string, path: Path): string
    requires path != ""
  {
    var rest := path[1..];
    var off := match LastSlash(rest) case None => 0 case Some(i) => i;
    Encode(host + rest[..off] + (if off > 0 then "/" else ""))
  }

  /** `name` is what follows the last slash of `path`, or all of it. */
  predicate EndsIn(path: Path, name: string) {
    '/' !in name && (path == name || (|name| < |path| && path[|path| - |name| - 1..] == "/" + name))
  }

  /** Decoding a URL gives the host and the path without its first character, with a slash behind a
      directory other than the root; decoding a file name gives the name behind the last slash. */
  lemma UrlsDecode(host: string, path: Path)
    requires path != "" && IsBytes(host) && IsBytes(path)
    ensures Decode(FullPath(host, path)) == Some(host + path[1..])
    ensures Decode(FulldirPath(host, path)) == Some(host + path[1..] + (if path[1..] == "" then "" else "/"))
  {
    DecodeEncode(host + path[1..]);
    DecodeEncode(host + path[1..] + (if |path| > 1 then "/" else ""));
  }

  lemma FileNameDecodes(path: Path)
    requires IsBytes(path)
    ensures Decode(FileName(path)).Some? && EndsIn(path, Decode(FileName(path)).value)
  {
    match LastSlash(path)
    case None =>
      DecodeEncode(path);
    case Some(i) =>
      DecodeEncode(path[i + 1..]);
      assert path[i..] == "/" + path[i + 1..];
  }

  /** The last slash of a path that starts with one, seen from the path without it. */
  lemma LastSlashOfRest(path: Path)
    requires path != "" && path[0] == '/'
    ensures LastSlash(path) == match LastSlash(path[1..]) case None => Some(0) case Some(i) => Some(i + 1)
  {
    match LastSlash(path[1..])
    case None => LastSlashIs(path, 0);
    case Some(i) =>
      assert path[i + 2..] == path[1..][i + 1..];
      LastSlashIs(path, i + 1);
  }

  /** Directory URL and file name make up the full URL exactly when the path without its first
      slash does not have its only slash at the front; `//name` loses a slash. */
  lemma DirAndNameMakeFullExactlyWhen(host: string, path: Path)
    requires path != "" && path[0] == '/'
    ensures DirPath(host, path) + FileName(path) == FullPath(host, path) <==> LastSlash(path[1..]) != Some(0)
  {
    var rest := path[1..];
    LastSlashOfRest(path);
    match LastSlash(rest)
    case None =>
      assert host + rest[..0] + "" == host;
      EncodeAppend(host, rest);
    case Some(i) =>
      var name := rest[i + 1..];
      assert path[i + 2..] == name;
      if i > 0 {
        assert host + rest == (host + rest[..i] + "/") + name;
        EncodeAppend(host + rest[..i] + "/", name);
      } else {
        assert host + rest[..0] + "" == host;
        assert rest == "/" + name;
        EncodeAppend(host, rest);
        EncodeAppend("/", name);
        assert Encode("/") == "/";
        assert |Encode(host + rest)| == |Encode(host)| + 1 + |Encode(name)|;
      }
  }
}
