/**
 * `urllib.parse.quote` as the Google Calendar link uses it, and the query string the
 * link is made of. The text is encoded as UTF-8 (RFC 3629, section 3), and every byte
 * other than an ASCII letter, a digit, `_.-~` or one of the caller's safe characters
 * is written `%XX` with upper-case hex digits (RFC 3986, section 2.1).
 */
module Percent {
  import opened Text

  // ---------------------------------------------------------------- UTF-8

  predicate IsByte(b: int) {
    0 <= b < 256
  }

  predicate AllBytes(bs: seq<int>) {
    forall k :: 0 <= k < |bs| ==> IsByte(bs[k])
  }

  /** The UTF-8 encoding of one scalar value: one byte below U+0080, otherwise a lead byte
      and continuation bytes, none of them ASCII. */
  function Utf8Char(c: char): (r: seq<int>)
    ensures 1 <= |r| <= 4 && AllBytes(r)
    ensures |r| == 1 <==> (c as int) < 0x80
    ensures |r| == 1 ==> r[0] == c as int
    ensures |r| > 1 ==> forall k :: 0 <= k < |r| ==> r[k] >= 0x80
  {
    var n := c as int;
    if n < 0x80 then [n]
    else if n < 0x800 then [0xC0 + n / 64, 0x80 + n % 64]
    else if n < 0x10000 then [0xE0 + n / 4096, 0x80 + (n / 64) % 64, 0x80 + n % 64]
    else [0xF0 + n / 262144, 0x80 + (n / 4096) % 64, 0x80 + (n / 64) % 64, 0x80 + n % 64]
  }

  /** The scalar value one UTF-8 sequence stands for. */
  function CodePoint(bs: seq<int>): int
    requires 1 <= |bs| <= 4
  {
    if |bs| == 1 then bs[0]
    else if |bs| == 2 then (bs[0] - 0xC0) * 64 + (bs[1] - 0x80)
    else if |bs| == 3 then (bs[0] - 0xE0) * 4096 + (bs[1] - 0x80) * 64 + (bs[2] - 0x80)
    else (bs[0] - 0xF0) * 262144 + (bs[1] - 0x80) * 4096 + (bs[2] - 0x80) * 64 + (bs[3] - 0x80)
  }

  /** Decoding the bytes of a character gives the character back. */
  lemma Utf8CharDecodes(c: char)
    ensures CodePoint(Utf8Char(c)) == c as int
  {
    var n := c as int;
    if n >= 0x800 {
      assert n / 64 == (n / 4096) * 64 + (n / 64) % 64;
      if n >= 0x10000 {
        assert n / 4096 == (n / 262144) * 64 + (n / 4096) % 64;
      }
    }
  }

  function Utf8(s: string): (r: seq<int>)
    ensures AllBytes(r)
    ensures |r| >= |s|
  {
    if s == [] then [] else Utf8Char(s[0]) + Utf8(s[1..])
  }

  // ---------------------------------------------------------------- quote

  /** The characters `quote` never escapes. */
  predicate Unreserved(c: char) {
    ('A' <= c <= 'Z') || ('a' <= c <= 'z') || ('0' <= c <= '9') || c == '_' || c == '.' || c == '-' || c == '~'
  }

  predicate IsHex(c: char) {
    ('0' <= c <= '9') || ('A' <= c <= 'F') || ('a' <= c <= 'f')
  }

  function HexDigit(n: int): (c: char)
    requires 0 <= n < 16
    ensures IsHex(c) && Unreserved(c)
  {
    if n < 10 then ('0' as int + n) as char else ('A' as int + n - 10) as char
  }

  function HexValue(c: char): (n: int)
    requires IsHex(c)
    ensures 0 <= n < 16
  {
    if '0' <= c <= '9' then c as int - '0' as int
    else if 'A' <= c <= 'F' then c as int - 'A' as int + 10
    else c as int - 'a' as int + 10
  }

  /** A safe set that keeps the escape character and the query delimiters escaped. */
  predicate SafeSet(safe: string) {
    '%' !in safe && '&' !in safe && '=' !in safe
  }

  function QuoteByte(b: int, safe: string): (r: string)
    requires IsByte(b)
    ensures forall c :: c in r ==> Unreserved(c) || c in safe || c == '%'
  {
    if b < 128 && (Unreserved(b as char) || b as char in safe) then [b as char]
    else ['%', HexDigit(b / 16), HexDigit(b % 16)]
  }

  function QuoteBytes(bs: seq<int>, safe: string): (r: string)
    requires AllBytes(bs)
    ensures forall c :: c in r ==> Unreserved(c) || c in safe || c == '%'
    ensures bs == [] <==> r == []
  {
    if bs == [] then "" else QuoteByte(bs[0], safe) + QuoteBytes(bs[1..], safe)
  }

  /** `quote(v, safe=safe)`. */
  function Quote(s: string, safe: string): (r: string)
    ensures s == [] <==> r == []
    ensures SafeSet(safe) ==> '&' !in r && '=' !in r
  {
    QuoteBytes(Utf8(s), safe)
  }

  /** `unquote_to_bytes`: every `%XX` becomes its byte, every other character its code. */
  function Unquote(s: string): seq<int>
    decreases |s|
  {
    if s == [] then []
    else if |s| >= 3 && s[0] == '%' && IsHex(s[1]) && IsHex(s[2]) then
      [16 * HexValue(s[1]) + HexValue(s[2])] + Unquote(s[3..])
    else [s[0] as int] + Unquote(s[1..])
  }

  lemma UnquoteByte(b: int, safe: string, rest: string)
    requires IsByte(b) && SafeSet(safe)
    ensures Unquote(QuoteByte(b, safe) + rest) == [b] + Unquote(rest)
  {
    var q := QuoteByte(b, safe);
    if |q| == 3 {
      assert (q + rest)[3..] == rest;
      assert HexValue(HexDigit(b / 16)) == b / 16;
      assert HexValue(HexDigit(b % 16)) == b % 16;
    } else {
      assert (q + rest)[1..] == rest;
    }
  }

  /** Unquoting what `quote` wrote gives back the bytes it encoded. */
  lemma {:induction false} UnquoteQuoteBytes(bs: seq<int>, safe: string)
    requires AllBytes(bs) && SafeSet(safe)
    ensures Unquote(QuoteBytes(bs, safe)) == bs
    decreases |bs|
  {
    if bs != [] {
      UnquoteByte(bs[0], safe, QuoteBytes(bs[1..], safe));
      UnquoteQuoteBytes(bs[1..], safe);
    }
  }

  /** Unquoting a quoted text gives its UTF-8 bytes. */
  lemma UnquoteQuote(s: string, safe: string)
    requires SafeSet(safe)
    ensures Unquote(Quote(s, safe)) == Utf8(s)
  {
    UnquoteQuoteBytes(Utf8(s), safe);
  }

  /** ASCII text without `%` unquotes to its own codes, which are its UTF-8 bytes. */
  lemma {:induction false} UnquoteAscii(s: string)
    requires forall k :: 0 <= k < |s| ==> (s[k] as int) < 0x80 && s[k] != '%'
    ensures Unquote(s) == Utf8(s)
    decreases |s|
  {
    if s != [] {
      UnquoteAscii(s[1..]);
    }
  }

  // ---------------------------------------------------------------- the query string

  /** `"&".join(f"{k}={v}" for k, v in query if v)`. */
  function Fields(query: seq<(string, string)>): seq<string>
    decreases |query|
  {
    if query == [] then []
    else (if query[0].1 != "" then [query[0].0 + "=" + query[0].1] else []) + Fields(query[1..])
  }

  function QueryString(query: seq<(string, string)>): string {
    Join(Fields(query), "&")
  }

  /** Reading a query string back: split at `&`, each field at `=`, and unquote the value. */
  function DecodeFields(fields: seq<string>): seq<(string, seq<int>)>
    decreases |fields|
  {
    if fields == [] then []
    else
      var kv := Split(fields[0], '=');
      [(kv[0], if |kv| > 1 then Unquote(kv[1]) else [])] + DecodeFields(fields[1..])
  }

  function DecodeQuery(q: string): seq<(string, seq<int>)> {
    DecodeFields(Split(q, '&'))
  }

  /** The pairs with a non-empty value, their values unquoted. */
  function Kept(query: seq<(string, string)>): seq<(string, seq<int>)>
    decreases |query|
  {
    if query == [] then []
    else (if query[0].1 != "" then [(query[0].0, Unquote(query[0].1))] else []) + Kept(query[1..])
  }

  /** Neither the key nor the value holds a delimiter. */
  predicate Plain(pair: (string, string)) {
    '&' !in pair.0 && '=' !in pair.0 && '&' !in pair.1 && '=' !in pair.1
  }

  lemma {:induction false} FieldsPlain(query: seq<(string, string)>)
    requires forall k :: 0 <= k < |query| ==> Plain(query[k])
    ensures forall k :: 0 <= k < |Fields(query)| ==> '&' !in Fields(query)[k]
    ensures DecodeFields(Fields(query)) == Kept(query)
    decreases |query|
  {
    if query != [] {
      FieldsPlain(query[1..]);
      var (key, v) := query[0];
      if v != "" {
        SplitCons(key, '=', v);
        assert Split(key + "=" + v, '=') == [key, v];
        var f := [key + "=" + v] + Fields(query[1..]);
        assert Fields(query) == f && f[0] == key + "=" + v && f[1..] == Fields(query[1..]);
        assert DecodeFields(f) == [(key, Unquote(v))] + DecodeFields(f[1..]);
        assert Kept(query) == [(key, Unquote(v))] + Kept(query[1..]);
      } else {
        assert Fields(query) == [] + Fields(query[1..]) == Fields(query[1..]);
        assert Kept(query) == [] + Kept(query[1..]) == Kept(query[1..]);
      }
    }
  }

  /** The query string reads back as exactly the pairs with a non-empty value, in order. */
  lemma QueryRoundTrip(query: seq<(string, string)>)
    requires forall k :: 0 <= k < |query| ==> Plain(query[k])
    requires Fields(query) != []
    ensures DecodeQuery(QueryString(query)) == Kept(query)
  {
    FieldsPlain(query);
    SplitJoin(Fields(query), '&');
  }

  /** A kept pair, its value unquoted. */
  function KeptOne(p: (string, string)): seq<(string, seq<int>)> {
    if p.1 != "" then [(p.0, Unquote(p.1))] else []
  }

  lemma KeptCons(p: (string, string), rest: seq<(string, string)>)
    ensures Kept([p] + rest) == KeptOne(p) + Kept(rest)
    ensures Fields([p] + rest) == (if p.1 != "" then [p.0 + "=" + p.1] else []) + Fields(rest)
  {
    assert ([p] + rest)[0] == p && ([p] + rest)[1..] == rest;
  }

  lemma KeptAt(q: seq<(string, string)>, i: nat)
    requires i < |q|
    ensures Kept(q[i..]) == KeptOne(q[i]) + Kept(q[i + 1..])
  {
    KeptCons(q[i], q[i + 1..]);
    assert q[i..] == [q[i]] + q[i + 1..];
  }

  /** `Kept` of a query of five pairs, pair by pair. */
  lemma KeptFive(q: seq<(string, string)>)
    requires |q| == 5
    ensures Kept(q) == KeptOne(q[0]) + (KeptOne(q[1]) + (KeptOne(q[2]) + (KeptOne(q[3]) + KeptOne(q[4]))))
  {
    KeptAt(q, 4);
    assert q[5..] == [];
    assert Kept(q[4..]) == KeptOne(q[4]);
    KeptAt(q, 3);
    KeptAt(q, 2);
    KeptAt(q, 1);
    KeptAt(q, 0);
    assert q[0..] == q;
  }

  lemma JoinStarts(parts: seq<string>, sep: string)
    requires parts != []
    ensures StartsWith(Join(parts, sep), parts[0])
  {
    if |parts| > 1 {
      assert Join(parts, sep) == parts[0] + (sep + Join(parts[1..], sep));
    }
  }

  /** A query whose first value is non-empty starts with that field. */
  lemma QueryStartsWithFirst(q: seq<(string, string)>)
    requires q != [] && q[0].1 != ""
    ensures Fields(q) != [] && StartsWith(QueryString(q), q[0].0 + "=" + q[0].1)
  {
    KeptCons(q[0], q[1..]);
    assert q == [q[0]] + q[1..];
    JoinStarts(Fields(q), "&");
  }
}
