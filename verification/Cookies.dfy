/** Finding one cookie in a Cookie header: three hand-written scanners, the one value
    they all return, and that it is the value that was printed. */
module Cookies {
  import opened Prelude
  import opened Text

  const REFRESH_TOKEN_COOKIE := "resourcehive_refresh_token"
  const GOOGLE_OAUTH_FLOW_COOKIE := "resourcehive_google_oauth_flow"

  /** Percent-decoding: none where the library call throws. */
  type Decoder = string -> Option<string>

  /** The pieces between separators; always at least one. */
  function Split(s: string, separator: char): seq<string> {
    if s == "" then [""]
    else if s[0] == separator then [""] + Split(s[1..], separator)
    else
      var rest := Split(s[1..], separator);
      [[s[0]] + rest[0]] + rest[1..]
  }

  /** The first index of a character, or -1. */
  function IndexOf(s: string, c: char): (i: int)
    ensures -1 <= i < |s|
  {
    if s == "" then -1
    else if s[0] == c then 0
    else
      var i := IndexOf(s[1..], c);
      if i == -1 then -1 else i + 1
  }

  /** It is the first one; there is none exactly if the character is not in the string. */
  lemma {:induction false} IndexOfExactly(s: string, c: char)
    ensures var i := IndexOf(s, c);
            if c in s then 0 <= i < |s| && s[i] == c && c !in s[..i] else i == -1
  {
    if s != "" && s[0] != c {
      IndexOfExactly(s[1..], c);
      assert s == [s[0]] + s[1..];
      var i := IndexOf(s[1..], c);
      if i != -1 {
        assert s[..i + 1] == [s[0]] + s[1..][..i];
      }
    }
  }

  function DecodedOrRaw(value: string, decode: Decoder): string {
    match decode(value)
    case None => value
    case Some(decoded) => decoded
  }

  predicate Named(piece: string, name: string) {
    IndexOf(piece, '=') != -1 && Trim(piece[..IndexOf(piece, '=')]) == name
  }

  function PieceValue(piece: string, decode: Decoder): Option<string>
    requires IndexOf(piece, '=') != -1
  {
    var value := Trim(piece[IndexOf(piece, '=') + 1..]);
    if value == "" then None else Some(DecodedOrRaw(value, decode))
  }

  /** The value of the first piece with the wanted name. */
  function Scan(pieces: seq<string>, name: string, decode: Decoder): Option<string> {
    if pieces == [] then None
    else if Named(pieces[0], name) then PieceValue(pieces[0], decode)
    else Scan(pieces[1..], name, decode)
  }

  function HeaderValue(header: Option<string>, name: string, decode: Decoder): Option<string> {
    if header.None? then None else Scan(Split(header.value, ';'), name, decode)
  }

  function Join(pieces: seq<string>, separator: char): string
    requires pieces != []
  {
    if |pieces| == 1 then pieces[0] else pieces[0] + [separator] + Join(pieces[1..], separator)
  }

  /** Splitting gives pieces without a separator that, joined by separators, are the
      string: on any header, not only on a printed one. */
  lemma {:induction false} SplitExactly(s: string, separator: char)
    ensures var pieces := Split(s, separator);
            && pieces != [] && Join(pieces, separator) == s
            && forall i :: 0 <= i < |pieces| ==> separator !in pieces[i]
  {
    if s != "" {
      var pieces, rest := Split(s, separator), Split(s[1..], separator);
      SplitExactly(s[1..], separator);
      assert s == [s[0]] + s[1..];
      if s[0] == separator {
        assert pieces[1..] == rest;
      } else {
        assert pieces[1..] == rest[1..];
        assert |rest| > 1 ==> [s[0]] + (rest[0] + [separator] + Join(rest[1..], separator))
                              == [s[0]] + rest[0] + [separator] + Join(rest[1..], separator);
      }
    }
  }

  lemma ScanRest(pieces: seq<string>, n: nat, name: string, decode: Decoder)
    requires n < |pieces|
    ensures Scan(pieces[n..], name, decode)
         == if Named(pieces[n], name) then PieceValue(pieces[n], decode) else Scan(pieces[n + 1..], name, decode)
  {
  }

  // ---------- The scanners ----------

  method FindCookie(cookieHeader: string, name: string, decode: Decoder) returns (r: Option<string>)
    ensures r == HeaderValue(Some(cookieHeader), name, decode)
  {
    var pieces := Split(cookieHeader, ';');
    var n := 0;
    while n < |pieces|
      invariant 0 <= n <= |pieces|
      invariant Scan(pieces[n..], name, decode) == Scan(pieces, name, decode)
    {
      ScanRest(pieces, n, name, decode);
      var cookie := pieces[n];
      n := n + 1;
      var separatorIndex := IndexOf(cookie, '=');
      if separatorIndex == -1 {
        continue;
      }
      var cookieName := Trim(cookie[..separatorIndex]);
      if cookieName != name {
        continue;
      }
      var value := Trim(cookie[separatorIndex + 1..]);
      if value == "" {
        return None;
      }
      return Some(DecodedOrRaw(value, decode));
    }
    return None;
  }

  method ExtractGoogleOAuthFlow(header: Option<string>, decode: Decoder) returns (r: Option<string>)
    ensures r == HeaderValue(header, "resourcehive_google_oauth_flow", decode)
  {
    if header.None? || header.value == "" {
      return None;
    }
    var pieces := Split(header.value, ';');
    var n := 0;
    while n < |pieces|
      invariant 0 <= n <= |pieces|
      invariant Scan(pieces[n..], GOOGLE_OAUTH_FLOW_COOKIE, decode) == Scan(pieces, GOOGLE_OAUTH_FLOW_COOKIE, decode)
    {
      ScanRest(pieces, n, GOOGLE_OAUTH_FLOW_COOKIE, decode);
      var cookie := pieces[n];
      n := n + 1;
      var separatorIndex := IndexOf(cookie, '=');
      if separatorIndex == -1 {
        continue;
      }
      if Trim(cookie[..separatorIndex]) != GOOGLE_OAUTH_FLOW_COOKIE {
        continue;
      }
      var value := Trim(cookie[separatorIndex + 1..]);
      return if value == "" then None else Some(DecodedOrRaw(value, decode));
    }
    return None;
  }

  method ExtractRefreshToken(cookieHeader: Option<string>, decode: Decoder) returns (r: Option<string>)
    ensures r == HeaderValue(cookieHeader, "resourcehive_refresh_token", decode)
  {
    if cookieHeader.None? || cookieHeader.value == "" {
      return None;
    }
    var pieces := Split(cookieHeader.value, ';');
    var n := 0;
    while n < |pieces|
      invariant 0 <= n <= |pieces|
      invariant Scan(pieces[n..], REFRESH_TOKEN_COOKIE, decode) == Scan(pieces, REFRESH_TOKEN_COOKIE, decode)
    {
      ScanRest(pieces, n, REFRESH_TOKEN_COOKIE, decode);
      var cookie := pieces[n];
      n := n + 1;
      var separatorIndex := IndexOf(cookie, '=');
      if separatorIndex == -1 {
        continue;
      }
      var name := Trim(cookie[..separatorIndex]);
      if name != REFRESH_TOKEN_COOKIE {
        continue;
      }
      var value := Trim(cookie[separatorIndex + 1..]);
      if value == "" {
        return None;
      }
      return Some(DecodedOrRaw(value, decode));
    }
    return None;
  }

  // ---------- Printing ----------

  datatype Pair = Pair(name: string, value: string)

  /** Names without separators, values without semicolons, neither with outer spaces;
      every pair the cookie grammar of RFC 6265 allows is of this kind. */
  predicate Legal(pair: Pair) {
    && Tight(pair.name) && Tight(pair.value)
    && ';' !in pair.name && '=' !in pair.name && ';' !in pair.value
  }

  function PrintPair(pair: Pair): string {
    pair.name + "=" + pair.value
  }

  /** The cookie string of section 5.4 of RFC 6265. */
  function Print(pairs: seq<Pair>): string {
    if pairs == [] then ""
    else if |pairs| == 1 then PrintPair(pairs[0])
    else PrintPair(pairs[0]) + "; " + Print(pairs[1..])
  }

  /** The first pair with a name decides. */
  function FirstNamed(pairs: seq<Pair>, name: string, decode: Decoder): Option<string> {
    if pairs == [] then None
    else if pairs[0].name == name then
      (if pairs[0].value == "" then None
       else if decode(pairs[0].value).None? then Some(pairs[0].value) else decode(pairs[0].value))
    else FirstNamed(pairs[1..], name, decode)
  }

  lemma {:induction false} IndexOfAfter(name: string, c: char, rest: string)
    requires c !in name
    ensures IndexOf(name + [c] + rest, c) == |name|
  {
    var s := name + [c] + rest;
    if name == "" {
      assert s[0] == c;
    } else {
      assert s[1..] == name[1..] + [c] + rest;
      IndexOfAfter(name[1..], c, rest);
    }
  }

  lemma {:induction false} SplitNone(s: string, separator: char)
    requires separator !in s
    ensures Split(s, separator) == [s]
  {
    if s != "" {
      SplitNone(s[1..], separator);
      assert [s[0]] + s[1..] == s;
    }
  }

  lemma {:induction false} SplitFirst(s: string, separator: char, rest: string)
    requires separator !in s
    ensures Split(s + [separator] + rest, separator) == [s] + Split(rest, separator)
  {
    var all := s + [separator] + rest;
    if s == "" {
      assert all[1..] == rest;
    } else {
      assert all[1..] == s[1..] + [separator] + rest;
      SplitFirst(s[1..], separator, rest);
      assert [s[0]] + s[1..] == s;
    }
  }

  lemma PieceShape(front: string, value: string)
    requires '=' !in front
    ensures var piece := front + ['='] + value;
            IndexOf(piece, '=') == |front| && piece[..|front|] == front && piece[|front| + 1..] == value
  {
    IndexOfAfter(front, '=', value);
  }

  /** A printed pair, with or without the space before it, reads back as itself. */
  lemma PieceReadsBack(pair: Pair, space: string, decode: Decoder, name: string)
    requires Legal(pair) && (space == "" || space == " ")
    ensures var piece := space + pair.name + ['='] + pair.value;
            && (Named(piece, name) <==> pair.name == name)
            && IndexOf(piece, '=') != -1
            && PieceValue(piece, decode) == (if pair.value == "" then None else Some(DecodedOrRaw(pair.value, decode)))
  {
    PieceShape(space + pair.name, pair.value);
    TrimTight(pair.name);
    TrimTight(pair.value);
    assert "" + pair.name == pair.name;
  }

  lemma ScanCons(piece: string, rest: seq<string>, name: string, decode: Decoder)
    ensures Scan([piece] + rest, name, decode)
         == if Named(piece, name) then PieceValue(piece, decode) else Scan(rest, name, decode)
  {
  }

  lemma PrintCons(pairs: seq<Pair>, space: string)
    requires pairs != []
    ensures var piece := space + pairs[0].name + ['='] + pairs[0].value;
            space + Print(pairs) == if |pairs| == 1 then piece else piece + [';'] + (" " + Print(pairs[1..]))
  {
    var printed := PrintPair(pairs[0]);
    Regroup(space, pairs[0].name, "=", pairs[0].value);
    assert space + printed == space + pairs[0].name + ['='] + pairs[0].value;
    if |pairs| > 1 {
      var rest := Print(pairs[1..]);
      Regroup(space, printed, "; ", rest);
      SeparatorSplits(space + printed, rest);
    }
  }

  lemma Regroup(a: string, b: string, c: string, d: string)
    ensures a + (b + c + d) == a + b + c + d
  {
  }

  lemma SeparatorSplits(a: string, b: string)
    ensures a + "; " + b == a + [';'] + (" " + b)
  {
  }

  lemma {:induction false} ScanReadsBack(pairs: seq<Pair>, space: string, name: string, decode: Decoder)
    requires pairs != [] && forall i :: 0 <= i < |pairs| ==> Legal(pairs[i])
    requires space == "" || space == " "
    ensures Scan(Split(space + Print(pairs), ';'), name, decode) == FirstNamed(pairs, name, decode)
    decreases |pairs|
  {
    var piece := space + pairs[0].name + ['='] + pairs[0].value;
    PieceReadsBack(pairs[0], space, decode, name);
    PrintCons(pairs, space);
    assert ';' !in piece;
    if |pairs| == 1 {
      SplitNone(piece, ';');
      ScanCons(piece, [], name, decode);
      assert [piece] + [] == [piece];
    } else {
      var rest := " " + Print(pairs[1..]);
      SplitFirst(piece, ';', rest);
      ScanCons(piece, Split(rest, ';'), name, decode);
      ScanReadsBack(pairs[1..], " ", name, decode);
    }
  }

  /** For any list of legal pairs printed as a header, the scanners return the decoded
      value of the first pair with the wanted name: none if it is absent or empty. */
  lemma ScannersReadWhatIsPrinted(pairs: seq<Pair>, name: string, decode: Decoder)
    requires forall i :: 0 <= i < |pairs| ==> Legal(pairs[i])
    ensures HeaderValue(Some(Print(pairs)), name, decode) == FirstNamed(pairs, name, decode)
  {
    if pairs == [] {
      ScanCons("", [], name, decode);
      assert Split("", ';') == [""] + [];
    } else {
      ScanReadsBack(pairs, "", name, decode);
      assert "" + Print(pairs) == Print(pairs);
    }
  }
}
