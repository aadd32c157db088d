/** URL helpers of src/utils/url.ts: query building (`buildUrlParams`,
 *  `addUrlParams`), external-link detection and path joining.
 *
 *  `URLSearchParams.toString()` is the application/x-www-form-urlencoded
 *  serializer of section 5.2 of the WHATWG URL Standard: each name and value
 *  is UTF-8 encoded, the bytes of ASCII alphanumerics and `*-._` are kept,
 *  0x20 becomes `+`, every other byte becomes `%` and two upper-case hex
 *  digits; pairs are `name=value` joined by `&`. */
module Url {
  import opened Strings

  // ---------------------------------------------------------------------
  // Form-urlencoding

  /** The bytes the serializer leaves as they are. */
  predicate IsUnreserved(c: char) {
    IsAlnum(c) || c == '*' || c == '-' || c == '.' || c == '_'
  }

  function HexDigit(n: nat): (c: char)
    requires n < 16
    ensures IsDigit(c) || 'A' <= c <= 'F'
  {
    if n < 10 then ('0' as int + n) as char else ('A' as int + n - 10) as char
  }

  /** One byte (0..255) as `%XX`. */
  function PercentByte(b: nat): (r: string)
    requires b < 256
    ensures |r| == 3 && r[0] == '%'
    ensures forall i :: 0 < i < 3 ==> IsDigit(r[i]) || 'A' <= r[i] <= 'F'
  {
    ['%', HexDigit(b / 16), HexDigit(b % 16)]
  }

  /** The UTF-8 encoding of one Unicode scalar value. */
  function Utf8(c: char): (bytes: seq<nat>)
    ensures 1 <= |bytes| <= 4
    ensures forall i :: 0 <= i < |bytes| ==> bytes[i] < 256
    ensures c as int < 0x80 ==> bytes == [c as int]
  {
    var cp := c as int;
    if cp < 0x80 then [cp]
    else if cp < 0x800 then [0xC0 + cp / 0x40, 0x80 + cp % 0x40]
    else if cp < 0x10000 then [0xE0 + cp / 0x1000, 0x80 + (cp / 0x40) % 0x40, 0x80 + cp % 0x40]
    else
      var lead := 0xF0 + (cp / 0x40000) % 0x8;
      [lead, 0x80 + (cp / 0x1000) % 0x40, 0x80 + (cp / 0x40) % 0x40, 0x80 + cp % 0x40]
  }

  function PercentBytes(bytes: seq<nat>): (r: string)
    requires forall i :: 0 <= i < |bytes| ==> bytes[i] < 256
    ensures |r| == 3 * |bytes|
    ensures forall i :: 0 <= i < |r| ==> r[i] == '%' || IsDigit(r[i]) || 'A' <= r[i] <= 'F'
  {
    if bytes == [] then "" else PercentByte(bytes[0]) + PercentBytes(bytes[1..])
  }

  /** Characters an encoded name or value can hold. */
  predicate IsEncodedChar(c: char) {
    IsUnreserved(c) || c == '+' || c == '%'
  }

  function EncodeChar(c: char): (r: string)
    ensures |r| >= 1
    ensures forall i :: 0 <= i < |r| ==> IsEncodedChar(r[i])
  {
    if IsUnreserved(c) then [c]
    else if c == ' ' then "+"
    else PercentBytes(Utf8(c))
  }

  /** The form-urlencoding of one name or value. */
  function Encode(s: string): (r: string)
    ensures |r| >= |s|
    ensures forall i :: 0 <= i < |r| ==> IsEncodedChar(r[i])
  {
    if s == [] then "" else EncodeChar(s[0]) + Encode(s[1..])
  }

  /** An encoded text holds neither pair delimiter. */
  lemma EncodeNoDelimiters(s: string)
    ensures '&' !in Encode(s) && '=' !in Encode(s)
  {
    var r := Encode(s);
    forall i | 0 <= i < |r| ensures r[i] != '&' && r[i] != '=' {
      assert IsEncodedChar(r[i]);
    }
  }

  /** Text made of kept characters is encoded as itself. */
  lemma {:induction false} EncodeUnreserved(s: string)
    requires AllIn(s, IsUnreserved)
    ensures Encode(s) == s
    decreases |s|
  {
    if s != [] {
      assert AllIn(s[1..], IsUnreserved) by {
        forall i | 0 <= i < |s[1..]| ensures IsUnreserved(s[1..][i]) {
          assert s[1..][i] == s[i + 1];
        }
      }
      EncodeUnreserved(s[1..]);
      assert [s[0]] + s[1..] == s;
    }
  }

  /** A space is serialized as `+`, other reserved ASCII as one `%XX`. */
  lemma EncodeCharExamples()
    ensures EncodeChar(' ') == "+"
    ensures EncodeChar('&') == "%26"
    ensures EncodeChar('=') == "%3D"
    ensures EncodeChar('/') == "%2F"
  {
  }

  // ---------------------------------------------------------------------
  // buildUrlParams and addUrlParams

  /** A value of the params record, after `String(value)`. */
  datatype ParamValue = Undefined | Null | Text(text: string)

  /** The entries `buildUrlParams` appends: those whose value is neither
   *  `undefined` nor `null`, in order. */
  function Kept(params: seq<(string, ParamValue)>): (kept: seq<(string, string)>)
    ensures |kept| <= |params|
  {
    if params == [] then []
    else if params[|params| - 1].1.Text? then
      Kept(params[..|params| - 1]) + [(params[|params| - 1].0, params[|params| - 1].1.text)]
    else Kept(params[..|params| - 1])
  }

  /** An entry is kept exactly when its value is text. */
  lemma {:induction false} KeptMembers(params: seq<(string, ParamValue)>, key: string, text: string)
    ensures (key, text) in Kept(params) <==> (key, Text(text)) in params
    decreases |params|
  {
    if params != [] {
      var init := params[..|params| - 1];
      KeptMembers(init, key, text);
      assert params == init + [params[|params| - 1]];
    }
  }

  /** Nothing is kept when every value is `undefined` or `null`. */
  lemma {:induction false} KeptNone(params: seq<(string, ParamValue)>)
    ensures Kept(params) == [] <==> forall i :: 0 <= i < |params| ==> !params[i].1.Text?
    decreases |params|
  {
    if params != [] {
      var init := params[..|params| - 1];
      KeptNone(init);
      assert forall i :: 0 <= i < |init| ==> init[i] == params[i];
    }
  }

  /** `name=value` for each entry, encoded. */
  function Pairs(entries: seq<(string, string)>): (pairs: seq<string>)
    ensures |pairs| == |entries|
  {
    if entries == [] then []
    else [Encode(entries[0].0) + "=" + Encode(entries[0].1)] + Pairs(entries[1..])
  }

  /** `URLSearchParams.prototype.toString`. */
  function Serialize(entries: seq<(string, string)>): string {
    Join(Pairs(entries), '&')
  }

  /** The query string is empty exactly when there are no entries: every
   *  pair holds at least its `=`. */
  lemma SerializeEmpty(entries: seq<(string, string)>)
    ensures Serialize(entries) == "" <==> entries == []
  {
    if entries != [] {
      var pairs := Pairs(entries);
      assert |pairs[0]| >= 1;
      if |pairs| > 1 {
        assert Serialize(entries) == pairs[0] + ['&'] + Join(pairs[1..], '&');
      }
    }
  }

  /** The pairs of a query string come back apart when it is split on `&`,
   *  and each pair splits on `=` into its encoded name and value. */
  lemma {:induction false} SerializeSplit(entries: seq<(string, string)>)
    requires entries != []
    ensures Split(Serialize(entries), '&') == Pairs(entries)
    ensures forall i :: 0 <= i < |entries| ==>
              Split(Pairs(entries)[i], '=') == [Encode(entries[i].0), Encode(entries[i].1)]
  {
    PairsShape(entries);
    SplitJoin(Pairs(entries), '&');
    forall i | 0 <= i < |entries|
      ensures Split(Pairs(entries)[i], '=') == [Encode(entries[i].0), Encode(entries[i].1)]
    {
      EncodeNoDelimiters(entries[i].0);
      EncodeNoDelimiters(entries[i].1);
      SplitAtFirst(Encode(entries[i].0), Encode(entries[i].1), '=');
      SplitNoSep(Encode(entries[i].1), '=');
    }
  }

  lemma {:induction false} PairsShape(entries: seq<(string, string)>)
    ensures forall i :: 0 <= i < |entries| ==>
              Pairs(entries)[i] == Encode(entries[i].0) + "=" + Encode(entries[i].1)
    ensures forall i :: 0 <= i < |entries| ==> '&' !in Pairs(entries)[i]
    decreases |entries|
  {
    if entries != [] {
      PairsShape(entries[1..]);
      EncodeNoDelimiters(entries[0].0);
      EncodeNoDelimiters(entries[0].1);
    }
  }

  /** `buildUrlParams(params)`: append every kept entry, then serialize. */
  method BuildUrlParams(params: seq<(string, ParamValue)>) returns (query: string)
    ensures query == Serialize(Kept(params))
    ensures query == "" <==> forall i :: 0 <= i < |params| ==> !params[i].1.Text?
  {
    var search: seq<(string, string)> := [];
    var i := 0;
    while i < |params|
      invariant 0 <= i <= |params|
      invariant search == Kept(params[..i])
    {
      assert params[..i + 1][..i] == params[..i];
      if params[i].1 != Undefined && params[i].1 != Null {
        search := search + [(params[i].0, params[i].1.text)];
      }
      i := i + 1;
    }
    assert params[..i] == params;
    query := Serialize(search);
    SerializeEmpty(search);
    KeptNone(params);
  }

  /** `addUrlParams(url, params)`. */
  method AddUrlParams(url: string, params: seq<(string, ParamValue)>) returns (r: string)
    ensures Kept(params) == [] ==> r == url
    ensures Kept(params) != [] ==> r == url + (if Contains(url, "?") then "&" else "?") + Serialize(Kept(params))
  {
    var query := BuildUrlParams(params);
    SerializeEmpty(Kept(params));
    if query == "" {
      return url;
    }
    var sep := if Contains(url, "?") then '&' else '?';
    r := url + [sep] + query;
  }

  // ---------------------------------------------------------------------
  // isExternalLink

  /** `/^(https?:)?\/\//.test(url)`: the optional scheme is consumed greedily,
   *  which here needs no backtracking because `//` cannot start with `h`. */
  predicate IsExternalLink(url: string) {
    var rest :=
      if StartsWith(url, "https:") then url[6..]
      else if StartsWith(url, "http:") then url[5..]
      else url;
    StartsWith(rest, "//")
  }

  lemma PrefixOfPrefix(s: string, p: string, q: string)
    ensures StartsWith(s, p + q) ==> StartsWith(s, p)
  {
    if StartsWith(s, p + q) {
      assert s[..|p|] == (p + q)[..|p|];
    }
  }

  /** After a prefix `p`, the rest starts with `q` iff the whole starts with `p + q`. */
  lemma PrefixThen(s: string, p: string, q: string)
    requires StartsWith(s, p)
    ensures StartsWith(s[|p|..], q) <==> StartsWith(s, p + q)
  {
    if |s| >= |p| + |q| {
      assert s[|p|..][..|q|] == s[|p|..|p| + |q|];
      assert s[..|p| + |q|] == s[..|p|] + s[|p|..|p| + |q|];
      if StartsWith(s, p + q) {
        assert s[|p|..|p| + |q|] == (p + q)[|p|..];
      }
    }
  }

  /** An external link starts with `http://`, `https://` or `//`. */
  lemma IsExternalLinkIff(url: string)
    ensures IsExternalLink(url) <==>
              StartsWith(url, "http://") || StartsWith(url, "https://") || StartsWith(url, "//")
  {
    if StartsWith(url, "https:") {
      PrefixThen(url, "https:", "//");
      assert !StartsWith(url, "http://") by { assert url[4] == 's'; }
      assert !StartsWith(url, "//") by { assert url[0] == 'h'; }
    } else if StartsWith(url, "http:") {
      PrefixThen(url, "http:", "//");
      PrefixOfPrefix(url, "https:", "//");
      assert !StartsWith(url, "//") by { assert url[0] == 'h'; }
    } else {
      PrefixOfPrefix(url, "http:", "//");
      PrefixOfPrefix(url, "https:", "//");
    }
  }

  // ---------------------------------------------------------------------
  // joinPath

  /** One segment as `joinPath` rewrites it at position `index`. */
  function TrimSegment(path: string, index: nat): string {
    var head := if index > 0 && StartsWith(path, "/") then path[1..] else path;
    if EndsWith(head, "/") then head[..|head| - 1] else head
  }

  /** `.filter(Boolean)` on strings. */
  function NonEmpty(parts: seq<string>): (r: seq<string>)
    ensures forall i :: 0 <= i < |r| ==> r[i] != ""
    ensures |r| <= |parts|
  {
    if parts == [] then []
    else if parts[0] == "" then NonEmpty(parts[1..])
    else [parts[0]] + NonEmpty(parts[1..])
  }

  function Trimmed(paths: seq<string>): (r: seq<string>)
    ensures |r| == |paths|
    ensures forall i :: 0 <= i < |paths| ==> r[i] == TrimSegment(paths[i], i)
  {
    seq(|paths|, i requires 0 <= i < |paths| => TrimSegment(paths[i], i))
  }

  /** `joinPath(...paths)`. */
  function JoinPath(paths: seq<string>): string {
    Join(NonEmpty(Trimmed(paths)), '/')
  }

  lemma {:induction false} NonEmptyNone(parts: seq<string>)
    ensures NonEmpty(parts) == [] <==> forall i :: 0 <= i < |parts| ==> parts[i] == ""
    decreases |parts|
  {
    if parts != [] {
      NonEmptyNone(parts[1..]);
      assert forall i :: 1 <= i < |parts| ==> parts[i] == parts[1..][i - 1];
    }
  }

  lemma JoinEmpty(parts: seq<string>, sep: char)
    requires forall i :: 0 <= i < |parts| ==> parts[i] != ""
    ensures Join(parts, sep) == "" <==> parts == []
  {
    if |parts| > 1 {
      assert Join(parts, sep) == parts[0] + [sep] + Join(parts[1..], sep);
    }
  }

  /** The joined path is empty exactly when every segment trims to nothing
   *  (in particular for no segments at all). */
  lemma JoinPathEmpty(paths: seq<string>)
    ensures JoinPath(paths) == "" <==> forall i :: 0 <= i < |paths| ==> TrimSegment(paths[i], i) == ""
  {
    NonEmptyNone(Trimmed(paths));
    JoinEmpty(NonEmpty(Trimmed(paths)), '/');
  }

  /** The first segment keeps its leading slash. */
  lemma JoinPathLeadingSlash(paths: seq<string>)
    requires |paths| > 0 && StartsWith(paths[0], "/") && |paths[0]| >= 2
    ensures StartsWith(JoinPath(paths), "/")
  {
    var t := Trimmed(paths);
    var first := TrimSegment(paths[0], 0);
    assert first[0] == '/';
    assert t[0] == first;
    assert t == [t[0]] + t[1..];
    assert NonEmpty(t) == [first] + NonEmpty(t[1..]);
    if |NonEmpty(t)| > 1 {
      assert JoinPath(paths) == first + ['/'] + Join(NonEmpty(t)[1..], '/');
    }
  }

  /** Later segments lose exactly one leading and one trailing slash. */
  lemma TrimSegmentOneSlash()
    ensures TrimSegment("//a//", 1) == "/a/"
    ensures TrimSegment("/a/", 0) == "/a"
    ensures TrimSegment("/", 0) == ""
  {
  }

  lemma JoinPathExample()
    ensures JoinPath(["/api", "user", "123"]) == "/api/user/123"
    ensures JoinPath(["/api/", "/user/", ""]) == "/api/user"
    ensures JoinPath([]) == ""
  {
    assert TrimSegment("/api", 0) == "/api" by { assert "/api"[1..] != "/"; }
    assert TrimSegment("user", 1) == "user" by { assert "user"[..1] != "/"; assert "user"[3..] != "/"; }
    assert TrimSegment("123", 2) == "123" by { assert "123"[..1] != "/"; assert "123"[2..] != "/"; }
    var t := Trimmed(["/api", "user", "123"]);
    assert t == ["/api", "user", "123"];
    assert NonEmpty(t) == t;
    assert TrimSegment("/api/", 0) == "/api" by { assert "/api/"[4..] == "/"; }
    assert TrimSegment("/user/", 1) == "user" by { assert "/user/"[..1] == "/"; assert "user/"[4..] == "/"; }
    var u := Trimmed(["/api/", "/user/", ""]);
    assert u == ["/api", "user", ""];
    assert NonEmpty(u) == ["/api", "user"];
  }

  /** A bare '/' as the first segment trims to nothing and is dropped. */
  lemma JoinPathBareRoot()
    ensures JoinPath(["/", "api"]) == "api"
  {
    assert !StartsWith("api", "/") by { assert "api"[..1][0] == 'a'; }
    assert !EndsWith("api", "/") by { assert "api"[2..][0] == 'i'; }
    assert TrimSegment("/", 0) == "";
    var w := Trimmed(["/", "api"]);
    assert w == ["", "api"];
    assert NonEmpty(w) == ["api"];
  }
}
