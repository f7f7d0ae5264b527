/** The If-None-Match scanner and the entity-tags the gateway makes
    (sections 2.3, 2.3.2 and 3.2 of RFC 7232). Characters stand for bytes. */
module ETags {
  import opened Wrappers

  predicate IsSpace(c: char) {
    c == ' ' || c == '\t' || c == '\n' || c == '\r'
  }

  // Allowed between the quotes of an entity-tag; a comma is, a quote is not.
  predicate EtagChar(c: char) {
    c as int == 0x21 || 0x23 <= c as int <= 0x7E || c as int >= 0x80
  }

  function TrimLeft(s: string): (r: string)
    ensures |r| <= |s|
    ensures r == [] || !IsSpace(r[0])
  {
    if s != "" && IsSpace(s[0]) then TrimLeft(s[1..]) else s
  }

  function TrimRight(s: string): (r: string)
    ensures r <= s
    ensures r == [] || !IsSpace(r[|r| - 1])
  {
    if s != "" && IsSpace(s[|s| - 1]) then TrimRight(s[..|s| - 1]) else s
  }

  function Trim(s: string): (r: string)
    ensures |r| <= |s|
  {
    TrimRight(TrimLeft(s))
  }

  lemma TrimTwice(s: string)
    ensures Trim(Trim(s)) == Trim(s)
  {
    var l, t := TrimLeft(s), Trim(s);
    if t != "" { assert t[0] == l[0]; }
  }

  // ---- Entity-tags ----

  datatype Tag = Tag(weak: bool, text: string)

  predicate ValidText(s: string) {
    forall c :: c in s ==> EtagChar(c)
  }

  function Show(t: Tag): string {
    (if t.weak then "W/" else "") + "\"" + t.text + "\""
  }

  function StripWeak(s: string): string {
    if "W/" <= s then s[2..] else s
  }

  predicate WeakMatch(a: string, b: string) {
    StripWeak(a) == StripWeak(b)
  }

  // Weak comparison looks at the opaque text only.
  lemma WeakMatchIsText(t: Tag, u: Tag)
    ensures WeakMatch(Show(t), Show(u)) <==> t.text == u.text
  {
    assert StripWeak(Show(t)) == "\"" + t.text + "\"" by { StripShow(t); }
    assert StripWeak(Show(u)) == "\"" + u.text + "\"" by { StripShow(u); }
    if "\"" + t.text + "\"" == "\"" + u.text + "\"" {
      assert ("\"" + t.text + "\"")[1..|t.text| + 1] == t.text;
      assert ("\"" + u.text + "\"")[1..|u.text| + 1] == u.text;
    }
  }

  lemma StripShow(t: Tag)
    ensures StripWeak(Show(t)) == "\"" + t.text + "\""
  {
    if t.weak {
      assert Show(t) == "W/" + ("\"" + t.text + "\"");
    } else {
      assert Show(t)[0] == '"';
    }
  }

  // ---- The scanner ----

  // Where the tag that is open at i ends, after its closing quote.
  function CloseQuote(s: string, i: nat): (r: Option<nat>)
    requires i <= |s|
    ensures r.Some? ==> i < r.value <= |s| && s[r.value - 1] == '"'
    ensures r.Some? ==> forall k :: i <= k < r.value - 1 ==> EtagChar(s[k])
    decreases |s| - i
  {
    if i == |s| then None
    else if EtagChar(s[i]) then CloseQuote(s, i + 1)
    else if s[i] == '"' then Some(i + 1)
    else None
  }

  function QuoteStart(s: string): nat {
    if "W/" <= s then 2 else 0
  }

  // The length of the entity-tag at the start of s, if there is one.
  function ScanLength(s: string): (r: Option<nat>)
    ensures r.Some? ==> 0 < r.value <= |s|
  {
    var start := QuoteStart(s);
    if |s| - start < 2 || s[start] != '"' then None else CloseQuote(s, start + 1)
  }

  method ScanETag(s0: string) returns (etag: string, remain: string)
    ensures ScanLength(Trim(s0)).Some? ==>
              etag == Trim(s0)[..ScanLength(Trim(s0)).value] && remain == Trim(s0)[ScanLength(Trim(s0)).value..]
    ensures ScanLength(Trim(s0)).None? ==> etag == "" && remain == ""
  {
    var s := Trim(s0);
    var start := 0;
    if "W/" <= s { start := 2; }
    if |s[start..]| < 2 || s[start] != '"' { return "", ""; }
    var i := start + 1;
    while i < |s|
      invariant start + 1 <= i <= |s|
      invariant ScanLength(s) == CloseQuote(s, i)
    {
      var c := s[i];
      if EtagChar(c) {
        i := i + 1;
      } else if c == '"' {
        return s[..i + 1], s[i + 1..];
      } else {
        return "", "";
      }
    }
    return "", "";
  }

  lemma {:induction false} CloseQuoteFinds(s: string, i: nat, text: string, rest: string)
    requires i <= |s| && s[i..] == text + "\"" + rest && ValidText(text)
    ensures CloseQuote(s, i) == Some(i + |text| + 1)
    decreases |text|
  {
    assert s[i] == s[i..][0];
    if text != "" {
      assert s[i] == text[0] && text[0] in text;
      assert s[i + 1..] == s[i..][1..] == text[1..] + "\"" + rest;
      CloseQuoteFinds(s, i + 1, text[1..], rest);
    }
  }

  // A printed tag is scanned back whole, whatever follows it.
  lemma ScanShown(t: Tag, rest: string)
    requires ValidText(t.text)
    ensures ScanLength(Show(t) + rest) == Some(|Show(t)|)
  {
    var s := Show(t) + rest;
    var start := if t.weak then 2 else 0;
    assert QuoteStart(s) == start by {
      if t.weak { assert s == "W/" + ("\"" + t.text + "\"" + rest); } else { assert s[0] == '"'; }
    }
    assert s[start] == '"';
    assert s[start + 1..] == t.text + "\"" + rest;
    CloseQuoteFinds(s, start + 1, t.text, rest);
  }

  // Whatever is scanned is a valid printed tag.
  lemma ScannedIsTag(s: string)
    requires ScanLength(s).Some?
    ensures exists t: Tag :: ValidText(t.text) && s[..ScanLength(s).value] == Show(t)
  {
    var start, end := QuoteStart(s), ScanLength(s).value;
    var t := Tag(start == 2, s[start + 1..end - 1]);
    assert ValidText(t.text);
    assert s[..start] == (if t.weak then "W/" else "");
    assert s[start] == '"' && s[end - 1] == '"';
    assert s[..end] == s[..start] + "\"" + s[start + 1..end - 1] + "\"";
    assert s[..end] == Show(t);
  }

  // ---- If-None-Match ----

  function HeaderMatches(header: string, cidEtag: string, dirEtag: string): bool
    decreases |header|
  {
    var buf := Trim(header);
    if buf == "" then false
    else if buf[0] == ',' then HeaderMatches(buf[1..], cidEtag, dirEtag)
    else if buf[0] == '*' then true
    else
      match ScanLength(buf)
      case None => false
      case Some(n) =>
        WeakMatch(buf[..n], cidEtag) || WeakMatch(buf[..n], dirEtag) || HeaderMatches(buf[n..], cidEtag, dirEtag)
  }

  method EtagMatch(ifNoneMatch: string, cidEtag: string, dirEtag: string) returns (matched: bool)
    ensures matched == HeaderMatches(ifNoneMatch, cidEtag, dirEtag)
  {
    var buf := ifNoneMatch;
    while true
      invariant HeaderMatches(ifNoneMatch, cidEtag, dirEtag) == HeaderMatches(buf, cidEtag, dirEtag)
      decreases |buf|
    {
      TrimTwice(buf);
      buf := Trim(buf);
      if |buf| == 0 { break; }
      if buf[0] == ',' {
        buf := buf[1..];
        continue;
      }
      if buf[0] == '*' { return true; }
      var etag, remain := ScanETag(buf);
      if etag == "" { break; }
      if WeakMatch(etag, cidEtag) || WeakMatch(etag, dirEtag) { return true; }
      buf := remain;
    }
    return false;
  }

  // ---- Headers as they are written ----

  datatype Piece = Space(c: char) | Comma | Star | Entity(tag: Tag)

  predicate ValidPieces(ps: seq<Piece>) {
    forall p :: p in ps ==> (p.Space? ==> IsSpace(p.c)) && (p.Entity? ==> ValidText(p.tag.text))
  }

  function PrintPiece(p: Piece): string {
    match p
    case Space(c) => [c]
    case Comma => ","
    case Star => "*"
    case Entity(t) => Show(t)
  }

  function Print(ps: seq<Piece>): string {
    if ps == [] then "" else PrintPiece(ps[0]) + Print(ps[1..])
  }

  // Some listed tag is one of the two, or the header holds the wildcard.
  ghost predicate Lists(ps: seq<Piece>, cidEtag: string, dirEtag: string) {
    exists p :: p in ps && Hits(p, cidEtag, dirEtag)
  }

  lemma {:induction false} PrintAppend(ps: seq<Piece>, p: Piece)
    ensures Print(ps + [p]) == Print(ps) + PrintPiece(p)
  {
    if ps == [] {
      assert [p][1..] == [];
    } else {
      assert (ps + [p])[1..] == ps[1..] + [p];
      PrintAppend(ps[1..], p);
    }
  }

  function DropLeading(ps: seq<Piece>): seq<Piece> {
    if ps != [] && ps[0].Space? then DropLeading(ps[1..]) else ps
  }

  function DropTrailing(ps: seq<Piece>): seq<Piece> {
    if ps != [] && ps[|ps| - 1].Space? then DropTrailing(ps[..|ps| - 1]) else ps
  }

  lemma {:induction false} TrimLeftPieces(ps: seq<Piece>)
    requires ValidPieces(ps)
    ensures TrimLeft(Print(ps)) == Print(DropLeading(ps))
    ensures ValidPieces(DropLeading(ps)) && |DropLeading(ps)| <= |ps|
    ensures forall p: Piece :: !p.Space? ==> (p in DropLeading(ps) <==> p in ps)
    ensures DropLeading(ps) == [] || !DropLeading(ps)[0].Space?
  {
    if ps != [] && ps[0].Space? {
      assert Print(ps)[1..] == Print(ps[1..]);
      assert ps == [ps[0]] + ps[1..];
      TrimLeftPieces(ps[1..]);
    } else if ps != [] {
      SolidEnds(ps[0]);
      assert Print(ps)[0] == PrintPiece(ps[0])[0];
    }
  }

  // A piece that is not a space neither starts nor ends with one.
  lemma SolidEnds(p: Piece)
    requires !p.Space?
    ensures PrintPiece(p) != "" && !IsSpace(PrintPiece(p)[0]) && !IsSpace(PrintPiece(p)[|PrintPiece(p)| - 1])
  {
  }

  lemma {:induction false} TrimRightPieces(ps: seq<Piece>)
    requires ValidPieces(ps)
    ensures TrimRight(Print(ps)) == Print(DropTrailing(ps))
    ensures ValidPieces(DropTrailing(ps)) && DropTrailing(ps) <= ps
    ensures forall p: Piece :: !p.Space? ==> (p in DropTrailing(ps) <==> p in ps)
  {
    if ps != [] {
      var k := |ps| - 1;
      assert ps == ps[..k] + [ps[k]];
      PrintAppend(ps[..k], ps[k]);
      if ps[k].Space? {
        assert Print(ps)[..|Print(ps)| - 1] == Print(ps[..k]);
        TrimRightPieces(ps[..k]);
      } else {
        SolidEnds(ps[k]);
        assert Print(ps)[|Print(ps)| - 1] == PrintPiece(ps[k])[|PrintPiece(ps[k])| - 1];
      }
    }
  }

  // Trimming a printed list leaves the same tags, starting with a solid piece.
  lemma TrimPieces(ps: seq<Piece>) returns (qs: seq<Piece>)
    requires ValidPieces(ps)
    ensures Trim(Print(ps)) == Print(qs) && ValidPieces(qs) && |qs| <= |ps|
    ensures forall p: Piece :: !p.Space? ==> (p in qs <==> p in ps)
    ensures qs == [] || !qs[0].Space?
  {
    TrimLeftPieces(ps);
    TrimRightPieces(DropLeading(ps));
    qs := DropTrailing(DropLeading(ps));
  }

  // What one piece adds to the answer.
  predicate Hits(p: Piece, cidEtag: string, dirEtag: string) {
    p.Star? || (p.Entity? && (WeakMatch(Show(p.tag), cidEtag) || WeakMatch(Show(p.tag), dirEtag)))
  }

  // The scan takes one solid piece at a time.
  lemma HeaderStep(h: string, p: Piece, x: string, cidEtag: string, dirEtag: string)
    requires Trim(h) == PrintPiece(p) + x && !p.Space? && ValidPieces([p])
    ensures |x| < |h|
    ensures HeaderMatches(h, cidEtag, dirEtag) <==> Hits(p, cidEtag, dirEtag) || HeaderMatches(x, cidEtag, dirEtag)
  {
    hide TrimLeft, TrimRight, Trim, WeakMatch;
    var buf := PrintPiece(p) + x;
    SolidEnds(p);
    assert p in [p] && Trim(h) == buf;
    assert buf[..|PrintPiece(p)|] == PrintPiece(p) && buf[|PrintPiece(p)|..] == x && buf[0] == PrintPiece(p)[0];
    if p.Entity? { ScanShown(p.tag, x); }
  }

  // On every list of entity-tags with any commas and spaces around them, the
  // scan finds a match exactly when one is listed.
  lemma {:induction false} MatchesIffListed(ps: seq<Piece>, cidEtag: string, dirEtag: string)
    requires ValidPieces(ps)
    ensures HeaderMatches(Print(ps), cidEtag, dirEtag) <==> Lists(ps, cidEtag, dirEtag)
    decreases |ps|
  {
    hide TrimLeft, TrimRight, Trim, WeakMatch;
    var qs := TrimPieces(ps);
    if qs != [] {
      var p, rest := qs[0], qs[1..];
      assert qs == [p] + rest;
      HeaderStep(Print(ps), p, Print(rest), cidEtag, dirEtag);
      MatchesIffListed(rest, cidEtag, dirEtag);
    }
    assert forall q: Piece :: Hits(q, cidEtag, dirEtag) ==> !q.Space?;
    assert Lists(ps, cidEtag, dirEtag) <==> Lists(qs, cidEtag, dirEtag);
  }

  // ---- Any header at all ----

  lemma {:induction false} TrimRightConcat(a: string, b: string)
    ensures TrimRight(a + b) == if TrimRight(b) == "" then TrimRight(a) else a + TrimRight(b)
  {
    if b == "" {
      assert a + b == a;
    } else if IsSpace(b[|b| - 1]) {
      assert (a + b)[..|a + b| - 1] == a + b[..|b| - 1];
      TrimRightConcat(a, b[..|b| - 1]);
    }
  }

  lemma PrintHead(ps: seq<Piece>)
    requires ps != []
    ensures Print(ps) == PrintPiece(ps[0]) + Print(ps[1..])
  {
  }

  lemma {:induction false} PrintConcat(ps: seq<Piece>, qs: seq<Piece>)
    ensures Print(ps + qs) == Print(ps) + Print(qs)
  {
    if ps == [] {
      assert ps + qs == qs;
    } else {
      assert (ps + qs)[1..] == ps[1..] + qs;
      PrintConcat(ps[1..], qs);
    }
  }

  lemma TrimLeftStep(c: char, s: string)
    ensures IsSpace(c) ==> TrimLeft([c] + s) == TrimLeft(s)
    ensures !IsSpace(c) ==> TrimLeft([c] + s) == [c] + s
  {
    assert ([c] + s)[1..] == s;
  }

  lemma TrimLeftSolid(s: string)
    ensures s != "" && !IsSpace(s[0]) ==> TrimLeft(s) == s
  {
  }

  lemma {:induction false} TrimLeftConcat(ps: seq<Piece>, rest: string)
    requires ValidPieces(ps) && exists p :: p in ps && !p.Space?
    ensures TrimLeft(Print(ps) + rest) == Print(DropLeading(ps)) + rest
  {
    hide IsSpace, TrimLeft, Print, EtagChar, Show;
    PrintHead(ps);
    var head, tail := PrintPiece(ps[0]), Print(ps[1..]);
    if ps[0].Space? {
      assert ps[0] in ps;
      assert (head + tail) + rest == [ps[0].c] + (tail + rest);
      TrimLeftStep(ps[0].c, tail + rest);
      assert forall p :: p in ps ==> p == ps[0] || p in ps[1..];
      TrimLeftConcat(ps[1..], rest);
    } else {
      hide PrintPiece;
      SolidEnds(ps[0]);
      assert ((head + tail) + rest)[0] == head[0];
      TrimLeftSolid((head + tail) + rest);
    }
  }

  // Trimming pieces with something after them leaves the same solid pieces.
  lemma TrimPrefix(ps: seq<Piece>, rest: string) returns (qs: seq<Piece>, rest': string)
    requires ValidPieces(ps) && exists p :: p in ps && !p.Space?
    ensures Trim(Print(ps) + rest) == Print(qs) + rest' && ValidPieces(qs) && 0 < |qs| <= |ps| && !qs[0].Space?
    ensures forall p: Piece :: !p.Space? ==> (p in qs <==> p in ps)
  {
    hide IsSpace, TrimLeft, TrimRight, Print, PrintPiece, EtagChar, Show;
    var solid :| solid in ps && !solid.Space?;
    TrimLeftConcat(ps, rest);
    TrimLeftPieces(ps);
    var ls := DropLeading(ps);
    TrimRightConcat(Print(ls), rest);
    if TrimRight(rest) == "" {
      TrimRightPieces(ls);
      qs, rest' := DropTrailing(ls), "";
    } else {
      qs, rest' := ls, TrimRight(rest);
    }
    assert solid in qs;
  }

  // A header that starts with a list holding a match is matched, whatever
  // comes after that list.
  lemma {:induction false} PrefixListedMatches(ps: seq<Piece>, rest: string, cidEtag: string, dirEtag: string)
    requires ValidPieces(ps) && Lists(ps, cidEtag, dirEtag)
    ensures HeaderMatches(Print(ps) + rest, cidEtag, dirEtag)
    decreases |ps|
  {
    hide TrimLeft, TrimRight, Trim, WeakMatch, HeaderMatches, PrintPiece, Print, Show, EtagChar, IsSpace;
    var hit :| hit in ps && Hits(hit, cidEtag, dirEtag);
    var qs, more := TrimPrefix(ps, rest);
    var p, qs1 := qs[0], qs[1..];
    assert qs == [p] + qs1;
    PrintHead(qs);
    assert (PrintPiece(p) + Print(qs1)) + more == PrintPiece(p) + (Print(qs1) + more);
    HeaderStep(Print(ps) + rest, p, Print(qs1) + more, cidEtag, dirEtag);
    if p != hit {
      assert hit in qs1;
      PrefixListedMatches(qs1, more, cidEtag, dirEtag);
    }
  }

  lemma {:induction false} LeadingSpaces(s: string) returns (ps: seq<Piece>)
    ensures ValidPieces(ps) && Print(ps) + TrimLeft(s) == s
  {
    if s != "" && IsSpace(s[0]) {
      var more := LeadingSpaces(s[1..]);
      ps := [Space(s[0])] + more;
      assert ps[1..] == more;
    } else {
      ps := [];
    }
  }

  // The header is some spaces, one piece, and more.
  ghost predicate Begins(h: string, ps: seq<Piece>, rest: string) {
    ValidPieces(ps) && h == Print(ps) + rest
  }

  lemma AfterPiece(h: string, p: Piece, n: nat, ps: seq<Piece>, rest: string) returns (qs: seq<Piece>, more: string)
    requires n <= |Trim(h)| && Trim(h)[..n] == PrintPiece(p) && ValidPieces([p])
    requires Begins(Trim(h)[n..], ps, rest)
    ensures Begins(h, qs, more) && p in qs && forall q :: q in ps ==> q in qs
  {
    hide Trim, TrimLeft, TrimRight, PrintPiece;
    var spaces, cut := Surroundings(h);
    var head, tail := PrintPiece(p), Print(ps);
    assert Trim(h) == head + (tail + rest);
    qs, more := spaces + ([p] + ps), rest + cut;
    assert ([p] + ps)[1..] == ps;
    PrintConcat(spaces, [p] + ps);
    Regroup(Print(spaces), head, tail, rest, cut);
  }

  lemma Regroup(a: string, b: string, c: string, d: string, e: string)
    ensures a + (b + (c + d)) + e == a + (b + c) + (d + e)
  {
  }

  // What trimming removes: spaces before, and a tail.
  lemma Surroundings(h: string) returns (spaces: seq<Piece>, cut: string)
    ensures ValidPieces(spaces) && h == Print(spaces) + Trim(h) + cut
  {
    hide IsSpace, Print, TrimLeft, TrimRight;
    spaces := LeadingSpaces(h);
    var l := TrimLeft(h);
    cut := l[|Trim(h)|..];
    assert l == Trim(h) + cut;
  }

  // A match always comes from a list at the start of the header.
  lemma {:induction false} MatchedIsListed(h: string, cidEtag: string, dirEtag: string) returns (qs: seq<Piece>, more: string)
    requires HeaderMatches(h, cidEtag, dirEtag)
    ensures Begins(h, qs, more) && Lists(qs, cidEtag, dirEtag)
    decreases |h|
  {
    hide TrimLeft, TrimRight, Trim, WeakMatch;
    var buf := Trim(h);
    if buf[0] == ',' {
      var ps, rest := MatchedIsListed(buf[1..], cidEtag, dirEtag);
      assert buf[..1] == ",";
      qs, more := AfterPiece(h, Comma, 1, ps, rest);
    } else if buf[0] == '*' {
      assert buf[..1] == "*" && Begins(buf[1..], [], buf[1..]);
      qs, more := AfterPiece(h, Star, 1, [], buf[1..]);
    } else {
      var n := ScanLength(buf).value;
      ScannedIsTag(buf);
      var t: Tag :| ValidText(t.text) && buf[..n] == Show(t);
      if WeakMatch(buf[..n], cidEtag) || WeakMatch(buf[..n], dirEtag) {
        assert Begins(buf[n..], [], buf[n..]);
        qs, more := AfterPiece(h, Entity(t), n, [], buf[n..]);
      } else {
        var ps, rest := MatchedIsListed(buf[n..], cidEtag, dirEtag);
        qs, more := AfterPiece(h, Entity(t), n, ps, rest);
      }
    }
  }

  // For every header, well formed or not: it matches iff it starts with a list
  // of tags, commas, spaces and wildcards that holds a match.
  lemma MatchesIffPrefixLists(h: string, cidEtag: string, dirEtag: string)
    ensures HeaderMatches(h, cidEtag, dirEtag) <==> exists ps, rest :: Begins(h, ps, rest) && Lists(ps, cidEtag, dirEtag)
  {
    if HeaderMatches(h, cidEtag, dirEtag) {
      var ps, rest := MatchedIsListed(h, cidEtag, dirEtag);
    }
    forall ps, rest | Begins(h, ps, rest) && Lists(ps, cidEtag, dirEtag) ensures HeaderMatches(h, cidEtag, dirEtag) {
      PrefixListedMatches(ps, rest, cidEtag, dirEtag);
    }
  }

  // ---- The gateway's own tags ----

  // The part of a media type after its last slash or dot.
  function ShortFormat(format: string): (r: string)
    ensures '.' !in r && '/' !in r
  {
    if format == "" then ""
    else
      var k := |format| - 1;
      if format[k] == '.' || format[k] == '/' then "" else ShortFormat(format[..k]) + [format[k]]
  }

  // format is None when the request asks for none, or for a bad one.
  function Suffix(format: Option<string>): Option<string> {
    if format.Some? && format.value != "" then Some(ShortFormat(format.value)) else None
  }

  function EtagText(cid: string, format: Option<string>): string {
    match Suffix(format)
    case None => cid
    case Some(f) => cid + "." + f
  }

  function GetEtag(cid: string, format: Option<string>): string {
    var suffix := match Suffix(format)
                  case None => "\""
                  case Some(f) => "." + f + "\"";
    "\"" + cid + suffix
  }

  lemma GetEtagIsTag(cid: string, format: Option<string>)
    ensures GetEtag(cid, format) == Show(Tag(false, EtagText(cid, format)))
    ensures "W/" + GetEtag(cid, format) == Show(Tag(true, EtagText(cid, format)))
  {
    match Suffix(format) {
      case None =>
        assert "W/" + ("\"" + cid + "\"") == "W/" + "\"" + cid + "\"";
      case Some(f) =>
        assert "\"" + cid + ("." + f + "\"") == "\"" + (cid + "." + f) + "\"";
        assert "W/" + ("\"" + (cid + "." + f) + "\"") == "W/" + "\"" + (cid + "." + f) + "\"";
    }
  }

  // An etag made by the gateway is scanned back whole, strong or weak.
  lemma GetEtagParsesBack(cid: string, format: Option<string>, rest: string)
    requires ValidText(cid) && (Suffix(format).Some? ==> ValidText(Suffix(format).value))
    ensures ScanLength(GetEtag(cid, format) + rest) == Some(|GetEtag(cid, format)|)
    ensures ScanLength("W/" + GetEtag(cid, format) + rest) == Some(|GetEtag(cid, format)| + 2)
  {
    GetEtagIsTag(cid, format);
    ScanShown(Tag(false, EtagText(cid, format)), rest);
    ScanShown(Tag(true, EtagText(cid, format)), rest);
  }

  // Equal etags, compared strongly or weakly, mean the same identifier in the
  // same format, provided identifiers hold no dot.
  lemma GetEtagInjective(c1: string, f1: Option<string>, c2: string, f2: Option<string>)
    requires '.' !in c1 && '.' !in c2
    ensures WeakMatch(GetEtag(c1, f1), GetEtag(c2, f2)) <==> c1 == c2 && Suffix(f1) == Suffix(f2)
  {
    GetEtagIsTag(c1, f1);
    GetEtagIsTag(c2, f2);
    WeakMatchIsText(Tag(false, EtagText(c1, f1)), Tag(false, EtagText(c2, f2)));
    if EtagText(c1, f1) == EtagText(c2, f2) {
      BeforeDot(c1, f1);
      BeforeDot(c2, f2);
    }
  }

  // The text up to its first dot is the identifier, the rest is the suffix.
  lemma BeforeDot(cid: string, format: Option<string>)
    requires '.' !in cid
    ensures var text := EtagText(cid, format);
            && (Suffix(format).None? <==> '.' !in text)
            && (Suffix(format).None? ==> text == cid)
            && (Suffix(format).Some? ==> FirstDot(text) == |cid| < |text| && text[..|cid|] == cid
                                         && text[|cid| + 1..] == Suffix(format).value)
  {
    var text := EtagText(cid, format);
    if Suffix(format).Some? {
      FirstDotAfter(cid, Suffix(format).value);
      assert text[|cid|] == '.';
    }
  }

  function FirstDot(s: string): nat {
    if s == "" || s[0] == '.' then 0 else 1 + FirstDot(s[1..])
  }

  lemma {:induction false} FirstDotAfter(a: string, b: string)
    requires '.' !in a
    ensures FirstDot(a + "." + b) == |a|
  {
    if a != "" {
      assert (a + "." + b)[1..] == a[1..] + "." + b;
      FirstDotAfter(a[1..], b);
    }
  }

  // ---- The gateway's tags, spelled out ----

  lemma {:induction false} ShortFormatIs(p: string, r: string)
    requires '.' !in r && '/' !in r && (p == "" || p[|p| - 1] == '.' || p[|p| - 1] == '/')
    ensures ShortFormat(p + r) == r
    decreases |r|
  {
    if r != "" {
      var k := |p + r| - 1;
      assert (p + r)[k] == r[|r| - 1] && (p + r)[..k] == p + r[..|r| - 1];
      assert r[|r| - 1] in r;
      ShortFormatIs(p, r[..|r| - 1]);
    } else {
      assert p + r == p;
    }
  }

  lemma {:induction false} FormatSplits(format: string) returns (p: string)
    ensures format == p + ShortFormat(format) && (p == "" || p[|p| - 1] == '.' || p[|p| - 1] == '/')
  {
    if format == "" || format[|format| - 1] == '.' || format[|format| - 1] == '/' {
      p := format;
    } else {
      p := FormatSplits(format[..|format| - 1]);
      assert format == format[..|format| - 1] + [format[|format| - 1]];
    }
  }

  // The etag is the quoted identifier, with a dot and the part of the media
  // type after its last dot or slash when a format was asked for.
  lemma GetEtagForm(cid: string, format: string, p: string, r: string)
    requires format == p + r && '.' !in r && '/' !in r && (p == "" || p[|p| - 1] == '.' || p[|p| - 1] == '/')
    ensures GetEtag(cid, None) == "\"" + cid + "\""
    ensures GetEtag(cid, Some("")) == "\"" + cid + "\""
    ensures format != "" ==> GetEtag(cid, Some(format)) == "\"" + cid + "." + r + "\""
  {
    ShortFormatIs(p, r);
    GetEtagIsTag(cid, Some(format));
  }

  // Every media type has such a part.
  lemma FormatHasPart(format: string)
    ensures exists p, r :: format == p + r && '.' !in r && '/' !in r && (p == "" || p[|p| - 1] == '.' || p[|p| - 1] == '/')
  {
    var p := FormatSplits(format);
  }

  // The media types a format parameter stands for.
  const FORMATS := ["application/vnd.ipld.raw", "application/vnd.ipld.car", "application/x-tar", "application/json",
                    "application/cbor", "application/vnd.ipld.dag-json", "application/vnd.ipld.dag-cbor"]

  predicate Asked(format: Option<string>) {
    format == None || format.value in FORMATS
  }

  const SHORT := ["raw", "car", "x-tar", "json", "cbor", "dag-json", "dag-cbor"]

  lemma ShortForms(i: nat)
    requires i < |FORMATS|
    ensures ShortFormat(FORMATS[i]) == SHORT[i]
  {
    hide ShortFormat;
    var r := SHORT[i];
    var p := if 2 <= i < 5 then "application/" else "application/vnd.ipld.";
    assert FORMATS[i] == p + r;
    ShortFormatIs(p, r);
  }

  lemma DifferentForms(i: nat, j: nat)
    requires i < |FORMATS| && j < |FORMATS| && ShortFormat(FORMATS[i]) == ShortFormat(FORMATS[j])
    ensures i == j
  {
    ShortForms(i);
    ShortForms(j);
  }

  // Responses that differ in identifier or format never share an etag.
  lemma EtagIdentifies(c1: string, f1: Option<string>, c2: string, f2: Option<string>)
    requires '.' !in c1 && '.' !in c2 && Asked(f1) && Asked(f2)
    ensures WeakMatch(GetEtag(c1, f1), GetEtag(c2, f2)) <==> c1 == c2 && f1 == f2
  {
    hide ShortFormat, GetEtag, WeakMatch;
    GetEtagInjective(c1, f1, c2, f2);
    if f1.Some? && f2.Some? && Suffix(f1) == Suffix(f2) {
      var i :| 0 <= i < |FORMATS| && FORMATS[i] == f1.value;
      var j :| 0 <= j < |FORMATS| && FORMATS[j] == f2.value;
      DifferentForms(i, j);
    }
  }

  // ---- Which characters may stand where ----

  // Between the quotes of a tag: anything but a quote, white space and control
  // characters.
  lemma TextChars(c: char)
    ensures ScanLength("\"" + [c] + "\"") == Some(3) <==> c as int > 0x20 && c as int != 0x22 && c as int != 0x7F
  {
    var s := "\"" + [c] + "\"";
    assert s[0] == '"' && s[1] == c && s[2] == '"' && |s| == 3;
    assert CloseQuote(s, 2) == Some(3);
  }

  // In front of a tag: a blank, a tab, a line end and a comma are skipped, and
  // only those.
  lemma SkippedChars(c: char, t: Tag, dirEtag: string)
    requires ValidText(t.text) && c != '"' && c != '*'
    ensures HeaderMatches([c] + Show(t), Show(t), dirEtag) <==> c == ' ' || c == '\t' || c == '\n' || c == '\r' || c == ','
  {
    var h := [c] + Show(t);
    if IsSpace(c) || c == ',' {
      var p := if c == ',' then Comma else Space(c);
      var ps := [p, Entity(t)];
      assert Print(ps[1..]) == Show(t) by { assert ps[1..] == [Entity(t)]; }
      assert Print(ps) == h;
      assert Entity(t) in ps && Hits(Entity(t), Show(t), dirEtag);
      MatchesIffListed(ps, Show(t), dirEtag);
    } else {
      assert h[|h| - 1] == '"' && h[0] == c;
      assert Trim(h) == h;
      assert QuoteStart(h) == 0 by { assert h[1] == Show(t)[0]; }
    }
  }
}
