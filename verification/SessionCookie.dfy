/**
 Reading and re-issuing the API's session cookie (apps/admin/app/session-cookie.ts), against the
 syntax of Set-Cookie in section 4.1.1 of RFC 6265.
 */
module SessionCookie {
  import opened Options
  import opened Text

  // ---- the platform's readers, left abstract ----

  /** decodeURIComponent (None: it throws), the Date constructor and Number (None: not a finite one). */
  datatype Readers = Readers(decode: string -> Option<string>, date: string -> Option<int>, number: string -> Option<real>)

  // ---- text ----

  function LowerChar(c: char): char {
    if 'A' <= c <= 'Z' then (c as int + 32) as char else c
  }

  /** toLowerCase, as far as a comparison with the module's ASCII words can tell. */
  function Lower(s: string): (r: string)
    ensures |r| == |s|
    ensures forall i :: 0 <= i < |s| ==> r[i] == LowerChar(s[i])
  {
    seq(|s|, i requires 0 <= i < |s| => LowerChar(s[i]))
  }

  lemma LowerOfConcat(s: string, t: string)
    ensures Lower(s + t) == Lower(s) + Lower(t)
  {
  }

  /** Joining on the separator undoes splitting at it. */
  lemma {:induction false} JoinOfSplit(s: string, sep: char)
    ensures Join(Split(s, sep), [sep]) == s
    decreases |s|
  {
    if s != "" {
      var rest := Split(s[1..], sep);
      JoinOfSplit(s[1..], sep);
      if s[0] == sep {
        assert ([""] + rest)[1..] == rest;
        assert Join([""] + rest, [sep]) == "" + [sep] + Join(rest, [sep]);
      } else {
        var pieces := [[s[0]] + rest[0]] + rest[1..];
        assert pieces[1..] == rest[1..];
      }
    }
  }

  // ---- parseSetCookie ----

  datatype SameSite = Lax | Strict

  datatype Session = Session(
    name: string,
    value: string,
    secure: bool,
    httpOnly: bool,
    sameSite: SameSite,
    path: string,
    expires: Option<int>,
    maxAge: Option<real>)

  /** `Throws` is the URIError of a value decodeURIComponent refuses; the source does not catch it. */
  datatype Parsed = NoCookie | Throws | Cookie(session: Session)

  /** The first entry that starts with the prefix, letter case aside. */
  function Attribute(entries: seq<string>, prefix: string): Option<string>
    decreases |entries|
  {
    if entries == [] then None
    else if prefix <= Lower(entries[0]) then Some(entries[0])
    else Attribute(entries[1..], prefix)
  }

  /** What the first such entry says after the prefix. */
  function Said(entries: seq<string>, prefix: string): (text: Option<string>)
    ensures text.Some? <==> Attribute(entries, prefix).Some?
  {
    AttributeStarts(entries, prefix);
    match Attribute(entries, prefix)
    case None => None
    case Some(entry) => Some(entry[|prefix|..])
  }

  lemma {:induction false} AttributeStarts(entries: seq<string>, prefix: string)
    ensures Attribute(entries, prefix).Some? ==> prefix <= Lower(Attribute(entries, prefix).value)
    decreases |entries|
  {
    if entries != [] { AttributeStarts(entries[1..], prefix); }
  }

  predicate Flag(entries: seq<string>, word: string) {
    exists i :: 0 <= i < |entries| && Lower(entries[i]) == word
  }

  function SameSiteOf(said: Option<string>): SameSite {
    if said.Some? && Lower(Trim(said.value)) == "strict" then Strict else Lax
  }

  function PathOf(said: Option<string>): string {
    if said.Some? && said.value != "" then said.value else "/"
  }

  function Read<T>(said: Option<string>, reader: string -> Option<T>): Option<T> {
    if said.Some? then reader(said.value) else None
  }

  function ParseSetCookie(readers: Readers, header: Option<string>): Parsed {
    if header.None? || header.value == "" then NoCookie
    else
      var parts := TrimAll(Split(header.value, ';'));
      var nameValue := parts[0];
      var entries := parts[1..];
      if nameValue == "" then NoCookie
      else
        var pieces := Split(nameValue, '=');
        var name := pieces[0];
        var rawValue := pieces[1..];
        if name == "" || rawValue == [] then NoCookie
        else
          var value := readers.decode(Join(rawValue, "="));
          if value.None? then Throws
          else Cookie(SessionOf(readers, name, value.value, entries))
  }

  function SessionOf(readers: Readers, name: string, value: string, entries: seq<string>): Session {
    Session(
      name,
      value,
      Flag(entries, "secure"),
      Flag(entries, "httponly"),
      SameSiteOf(Said(entries, "samesite=")),
      PathOf(Said(entries, "path=")),
      Read(Said(entries, "expires="), readers.date),
      Read(Said(entries, "max-age="), readers.number))
  }

  // ---- readSessionCookie ----

  /** The header ends the search: it is the session cookie, or reading it throws. */
  predicate Decides(readers: Readers, header: Option<string>, cookieName: string) {
    match ParseSetCookie(readers, header)
    case NoCookie => false
    case Throws => true
    case Cookie(session) => session.name == cookieName
  }

  /** The first header that decides is the answer; without one there is no session. */
  method ReadSessionCookie(readers: Readers, headers: seq<Option<string>>, cookieName: string) returns (found: Parsed)
    ensures found == NoCookie <==> forall i :: 0 <= i < |headers| ==> !Decides(readers, headers[i], cookieName)
    ensures found != NoCookie ==>
              exists i :: 0 <= i < |headers| && Decides(readers, headers[i], cookieName)
                          && found == ParseSetCookie(readers, headers[i])
                          && forall j :: 0 <= j < i ==> !Decides(readers, headers[j], cookieName)
  {
    for i := 0 to |headers|
      invariant forall j :: 0 <= j < i ==> !Decides(readers, headers[j], cookieName)
    {
      var parsed := ParseSetCookie(readers, headers[i]);
      if parsed.Throws? {
        return Throws;
      }
      if parsed.Cookie? && parsed.session.name == cookieName {
        return parsed;
      }
    }
    found := NoCookie;
  }

  // ---- sessionCookieOptions ----

  datatype CookieOptions = CookieOptions(
    httpOnly: bool,
    sameSite: SameSite,
    secure: bool,
    path: string,
    maxAge: Option<real>,
    expires: Option<int>)

  function Reissued(session: Session): CookieOptions {
    CookieOptions(true, session.sameSite, session.secure, session.path, session.maxAge, session.expires)
  }

  // ---- what the API sends ----

  datatype Kind = Expires | MaxAge | Domain | Path | Secure | HttpOnly | SameSiteKind

  function Word(kind: Kind): string {
    match kind
    case Expires => "expires="
    case MaxAge => "max-age="
    case Domain => "domain="
    case Path => "path="
    case Secure => "secure"
    case HttpOnly => "httponly"
    case SameSiteKind => "samesite="
  }

  predicate IsFlag(kind: Kind) {
    kind.Secure? || kind.HttpOnly?
  }

  /** One attribute of the header: its word in any letter case, and what follows it. */
  datatype Sent = Sent(kind: Kind, word: string, text: string)

  /** cookie-av of RFC 6265: no semicolon, no space at the end, nothing after a flag. */
  predicate SentOk(a: Sent) {
    && Lower(a.word) == Word(a.kind)
    && (IsFlag(a.kind) ==> a.text == "")
    && Free(a.text, ';')
    && (a.text != "" ==> !IsSpace(a.text[|a.text| - 1]))
  }

  function Entry(a: Sent): string {
    a.word + a.text
  }

  function Entries(attributes: seq<Sent>): (entries: seq<string>)
    ensures |entries| == |attributes|
    ensures forall i :: 0 <= i < |entries| ==> entries[i] == Entry(attributes[i])
  {
    seq(|attributes|, i requires 0 <= i < |attributes| => Entry(attributes[i]))
  }

  /** set-cookie-string of RFC 6265: the pair, then "; " before each attribute. */
  function Render(name: string, encoded: string, attributes: seq<Sent>): string {
    Join([name + "=" + encoded] + Entries(attributes), "; ")
  }

  predicate NameOk(name: string) {
    name != "" && Free(name, ';') && Free(name, '=') && !IsSpace(name[0])
  }

  /** An encoded value has no semicolon and no space at its end; it may hold equals signs. */
  predicate EncodedOk(encoded: string) {
    Free(encoded, ';') && (encoded != "" ==> !IsSpace(encoded[|encoded| - 1]))
  }

  /** What the first attribute of a kind says. */
  function FirstText(attributes: seq<Sent>, kind: Kind): Option<string>
    decreases |attributes|
  {
    if attributes == [] then None
    else if attributes[0].kind == kind then Some(attributes[0].text)
    else FirstText(attributes[1..], kind)
  }

  predicate Has(attributes: seq<Sent>, kind: Kind) {
    exists i :: 0 <= i < |attributes| && attributes[i].kind == kind
  }

  // ---- reading a rendered header ----

  lemma WordsHaveNoSpace(kind: Kind)
    ensures Word(kind) != "" && forall i :: 0 <= i < |Word(kind)| ==> !IsSpace(Word(kind)[i]) && Word(kind)[i] != ';'
  {
  }

  lemma EntryIsClean(a: Sent)
    requires SentOk(a)
    ensures Free(Entry(a), ';') && Trimmed(Entry(a))
  {
    WordsHaveNoSpace(a.kind);
    assert forall i :: 0 <= i < |a.word| ==> LowerChar(a.word[i]) == Word(a.kind)[i];
    forall i | 0 <= i < |a.word|
      ensures !IsSpace(a.word[i]) && a.word[i] != ';'
    {
      assert LowerChar(a.word[i]) == Word(a.kind)[i];
    }
  }

  /** No word starts with another kind's word. */
  lemma WordsDiffer(k: Kind, k2: Kind)
    ensures Word(k) <= Word(k2) ==> k == k2
  {
    assert Word(k)[0] == Word(k2)[0] && Word(k)[1] == Word(k2)[1] ==> k == k2;
  }

  /** Two words that start one text are the same kind's. */
  lemma OneWordStarts(text: string, k: Kind, k2: Kind)
    requires Word(k) <= text && Word(k2) <= text
    ensures k == k2
  {
    assert Word(k) == text[..|Word(k)|] && Word(k2) == text[..|Word(k2)|];
    if |Word(k)| <= |Word(k2)| {
      assert Word(k) == Word(k2)[..|Word(k)|];
      WordsDiffer(k, k2);
    } else {
      assert Word(k2) == Word(k)[..|Word(k2)|];
      WordsDiffer(k2, k);
    }
  }

  lemma EntryStartsWithItsWord(a: Sent)
    requires SentOk(a)
    ensures Word(a.kind) <= Lower(Entry(a)) && Lower(Entry(a)) == Word(a.kind) + Lower(a.text)
    ensures Entry(a)[|Word(a.kind)|..] == a.text
  {
    LowerOfConcat(a.word, a.text);
  }

  lemma EntryStarts(a: Sent, kind: Kind)
    requires SentOk(a)
    ensures Word(kind) <= Lower(Entry(a)) <==> a.kind == kind
    ensures Entry(a)[|Word(a.kind)|..] == a.text
  {
    EntryStartsWithItsWord(a);
    if Word(kind) <= Lower(Entry(a)) {
      OneWordStarts(Lower(Entry(a)), kind, a.kind);
    }
  }

  /** Looking an attribute up by its word finds the first of its kind. */
  lemma {:induction false} SaidIsFirst(attributes: seq<Sent>, kind: Kind)
    requires forall i :: 0 <= i < |attributes| ==> SentOk(attributes[i])
    ensures Said(Entries(attributes), Word(kind)) == FirstText(attributes, kind)
    decreases |attributes|
  {
    if attributes != [] {
      EntryStarts(attributes[0], kind);
      SaidIsFirst(attributes[1..], kind);
      assert Entries(attributes)[1..] == Entries(attributes[1..]);
    }
  }

  lemma FlagIsHas(attributes: seq<Sent>, kind: Kind)
    requires forall i :: 0 <= i < |attributes| ==> SentOk(attributes[i])
    requires IsFlag(kind)
    ensures Flag(Entries(attributes), Word(kind)) <==> Has(attributes, kind)
  {
    forall i | 0 <= i < |attributes|
      ensures Lower(Entries(attributes)[i]) == Word(kind) <==> attributes[i].kind == kind
    {
      EntryStarts(attributes[i], kind);
      EntryStartsWithItsWord(attributes[i]);
    }
  }

  lemma PartsOfRender(name: string, encoded: string, attributes: seq<Sent>)
    requires NameOk(name) && EncodedOk(encoded)
    requires forall i :: 0 <= i < |attributes| ==> SentOk(attributes[i])
    ensures TrimAll(Split(Render(name, encoded, attributes), ';')) == [name + "=" + encoded] + Entries(attributes)
  {
    var items := [name + "=" + encoded] + Entries(attributes);
    forall k | 0 <= k < |items|
      ensures Free(items[k], ';') && Trimmed(items[k])
    {
      if k > 0 { EntryIsClean(attributes[k - 1]); }
    }
    SplitOfJoin(items, ';');
    TrimAllOfSpaced(items);
  }

  lemma PairSplits(name: string, encoded: string)
    requires NameOk(name)
    ensures var pieces := Split(name + "=" + encoded, '=');
            pieces[0] == name && pieces[1..] != [] && Join(pieces[1..], "=") == encoded
  {
    SplitFirst(name, '=', encoded);
    JoinOfSplit(encoded, '=');
    assert ([name] + Split(encoded, '='))[1..] == Split(encoded, '=');
  }

  /** What a session cookie sent with these attributes is read as. */
  function ReadAs(readers: Readers, name: string, value: string, attributes: seq<Sent>): Session {
    Session(name, value,
            Has(attributes, Secure), Has(attributes, HttpOnly),
            SameSiteOf(FirstText(attributes, SameSiteKind)),
            PathOf(FirstText(attributes, Path)),
            Read(FirstText(attributes, Expires), readers.date),
            Read(FirstText(attributes, MaxAge), readers.number))
  }

  /**
   A header rendered by the RFC's syntax, its attributes in any order and letter case, gives back its
   name, its value, its flags, its path and its lifetime; a value that cannot be decoded throws.
   */
  lemma ParseOfRender(readers: Readers, name: string, encoded: string, attributes: seq<Sent>)
    requires NameOk(name) && EncodedOk(encoded)
    requires forall i :: 0 <= i < |attributes| ==> SentOk(attributes[i])
    ensures ParseSetCookie(readers, Some(Render(name, encoded, attributes))) ==
              match readers.decode(encoded)
              case None => Throws
              case Some(value) => Cookie(ReadAs(readers, name, value, attributes))
  {
    var header := Render(name, encoded, attributes);
    var pair := name + "=" + encoded;
    PartsOfRender(name, encoded, attributes);
    PairSplits(name, encoded);
    NonEmptyJoin([pair] + Entries(attributes));
    ParseFromParts(readers, header, pair, Entries(attributes));
    if readers.decode(encoded).Some? {
      SessionFromEntries(readers, name, readers.decode(encoded).value, attributes);
    }
  }

  lemma SessionFromEntries(readers: Readers, name: string, value: string, attributes: seq<Sent>)
    requires forall i :: 0 <= i < |attributes| ==> SentOk(attributes[i])
    ensures SessionOf(readers, name, value, Entries(attributes)) == ReadAs(readers, name, value, attributes)
  {
    SaidIsFirst(attributes, SameSiteKind);
    SaidIsFirst(attributes, Path);
    SaidIsFirst(attributes, Expires);
    SaidIsFirst(attributes, MaxAge);
    FlagIsHas(attributes, Secure);
    FlagIsHas(attributes, HttpOnly);
  }

  lemma ParseFromParts(readers: Readers, header: string, pair: string, entries: seq<string>)
    requires header != "" && pair != "" && TrimAll(Split(header, ';')) == [pair] + entries
    requires Split(pair, '=')[0] != "" && Split(pair, '=')[1..] != []
    ensures var pieces := Split(pair, '=');
            ParseSetCookie(readers, Some(header)) ==
              match readers.decode(Join(pieces[1..], "="))
              case None => Throws
              case Some(value) => Cookie(SessionOf(readers, pieces[0], value, entries))
  {
    assert ([pair] + entries)[1..] == entries;
  }

  lemma NonEmptyJoin(items: seq<string>)
    requires items != [] && items[0] != ""
    ensures Join(items, "; ") != ""
  {
  }

  // ---- the re-issued cookie ----

  predicate LiveFor(readers: Readers, attributes: seq<Sent>) {
    || Read(FirstText(attributes, Expires), readers.date).Some?
    || Read(FirstText(attributes, MaxAge), readers.number).Some?
  }

  predicate SaysStrict(said: Option<string>) {
    said.Some? && Lower(Trim(said.value)) == "strict"
  }

  /**
   The cookie this panel sets for a header the API rendered: never readable by scripts, never laxer
   than lax and strict exactly when the API said so, secure exactly when the API said so, and
   persistent exactly when the API gave it a lifetime that can be read, and then for that lifetime.
   */
  lemma ReissueMirrors(readers: Readers, name: string, encoded: string, attributes: seq<Sent>)
    requires NameOk(name) && EncodedOk(encoded) && readers.decode(encoded).Some?
    requires forall i :: 0 <= i < |attributes| ==> SentOk(attributes[i])
    ensures ParseSetCookie(readers, Some(Render(name, encoded, attributes))).Cookie?
    ensures var options := Reissued(ParseSetCookie(readers, Some(Render(name, encoded, attributes))).session);
            && options.httpOnly
            && (options.sameSite == Strict <==> SaysStrict(FirstText(attributes, SameSiteKind)))
            && (options.secure <==> Has(attributes, Secure))
            && options.path == PathOf(FirstText(attributes, Path))
            && options.maxAge == Read(FirstText(attributes, MaxAge), readers.number)
            && options.expires == Read(FirstText(attributes, Expires), readers.date)
            && (options.maxAge.Some? || options.expires.Some? <==> LiveFor(readers, attributes))
  {
    ParseOfRender(readers, name, encoded, attributes);
  }

  /**
   Another cookie's value that cannot be decoded, sent before the session cookie, ends the search:
   the session cookie behind it is not read.
   */
  lemma UnreadableNeighbourDecides(readers: Readers, other: string, encoded: string, attributes: seq<Sent>, cookieName: string)
    requires NameOk(other) && EncodedOk(encoded) && other != cookieName
    requires forall i :: 0 <= i < |attributes| ==> SentOk(attributes[i])
    ensures Decides(readers, Some(Render(other, encoded, attributes)), cookieName) <==> readers.decode(encoded).None?
  {
    ParseOfRender(readers, other, encoded, attributes);
  }

  /** "a=%" cannot be made sense of, and throws instead of being answered with null. */
  lemma LonePercentThrows(readers: Readers)
    requires readers.decode("%").None?
    ensures ParseSetCookie(readers, Some("a=%")) == Throws
  {
    assert Render("a", "%", []) == "a=%";
    ParseOfRender(readers, "a", "%", []);
  }

  /** The path the cookie is set for again: what the first path attribute says, or the root if that is nothing or missing. */
  lemma PathIsMirrored(readers: Readers, name: string, encoded: string, attributes: seq<Sent>)
    requires NameOk(name) && EncodedOk(encoded) && readers.decode(encoded).Some?
    requires forall i :: 0 <= i < |attributes| ==> SentOk(attributes[i])
    ensures ParseSetCookie(readers, Some(Render(name, encoded, attributes))).Cookie?
    ensures var path := Reissued(ParseSetCookie(readers, Some(Render(name, encoded, attributes))).session).path;
            && (!Has(attributes, Path) ==> path == "/")
            && forall i :: 0 <= i < |attributes| && attributes[i].kind == Path && (forall j :: 0 <= j < i ==> attributes[j].kind != Path) ==>
                 path == if attributes[i].text == "" then "/" else attributes[i].text
  {
    ParseOfRender(readers, name, encoded, attributes);
    if !Has(attributes, Path) { NothingSaid(attributes, Path); }
    forall i | 0 <= i < |attributes| && attributes[i].kind == Path && forall j :: 0 <= j < i ==> attributes[j].kind != Path
      ensures FirstText(attributes, Path) == Some(attributes[i].text)
    {
      FirstTextIs(attributes, Path, i);
    }
  }

  lemma {:induction false} NothingSaid(attributes: seq<Sent>, kind: Kind)
    requires forall i :: 0 <= i < |attributes| ==> attributes[i].kind != kind
    ensures FirstText(attributes, kind) == None
    decreases |attributes|
  {
    if attributes != [] { NothingSaid(attributes[1..], kind); }
  }

  lemma {:induction false} FirstTextIs(attributes: seq<Sent>, kind: Kind, i: nat)
    requires i < |attributes| && attributes[i].kind == kind && forall j :: 0 <= j < i ==> attributes[j].kind != kind
    ensures FirstText(attributes, kind) == Some(attributes[i].text)
    decreases |attributes|
  {
    if i > 0 { FirstTextIs(attributes[1..], kind, i - 1); }
  }

  /** Lower case is that of the ASCII letters, and every other character is left as it is. */
  lemma LowerIsAscii(c: char)
    ensures Lower("ABCDEFGHIJKLMNOPQRSTUVWXYZ") == "abcdefghijklmnopqrstuvwxyz"
    ensures !('A' <= c <= 'Z') ==> Lower([c]) == [c]
  {
  }

  /** A name and a value: something before an equals sign. */
  predicate NamesValue(pair: string) {
    exists i :: 0 < i < |pair| && pair[i] == '='  && pair[0] != '='
  }

  lemma {:induction false} PiecesOf(pair: string)
    ensures NamesValue(pair) <==> pair != "" && Split(pair, '=')[0] != "" && Split(pair, '=')[1..] != []
    decreases |pair|
  {
    if pair != "" {
      if exists i :: 0 <= i < |pair| && pair[i] == '=' {
        var i :| 0 <= i < |pair| && pair[i] == '=' && forall j :: 0 <= j < i ==> pair[j] != '=' by { FirstEquals(pair); }
        SplitFirst(pair[..i], '=', pair[i + 1..]);
        assert pair[..i] + ['='] + pair[i + 1..] == pair;
      } else {
        SplitWhole(pair, '=');
      }
    }
  }

  lemma {:induction false} FirstEquals(pair: string)
    requires exists i :: 0 <= i < |pair| && pair[i] == '='
    ensures exists i :: 0 <= i < |pair| && pair[i] == '=' && forall j :: 0 <= j < i ==> pair[j] != '='
    decreases |pair|
  {
    var n := |pair| - 1;
    if exists i :: 0 <= i < n && pair[..n][i] == '=' {
      FirstEquals(pair[..n]);
      var i :| 0 <= i < n && pair[..n][i] == '=' && forall j :: 0 <= j < i ==> pair[..n][j] != '=';
      assert pair[i] == '=' && forall j :: 0 <= j < i ==> pair[j] == pair[..n][j];
    } else {
      assert forall i :: 0 <= i < n ==> pair[i] == pair[..n][i];
      assert pair[n] == '=';
    }
  }

  /**
   Which headers hold no cookie, whatever follows the first semicolon: none at all, an empty one, and one
   whose first part, trimmed, has nothing before an equals sign. Such a header ends no search.
   */
  lemma NoCookieExactly(readers: Readers, first: string, rest: string, cookieName: string)
    requires Free(first, ';') && (rest == "" || rest[0] == ';')
    ensures ParseSetCookie(readers, None) == NoCookie && !Decides(readers, None, cookieName)
    ensures ParseSetCookie(readers, Some(first + rest)) == NoCookie <==> !NamesValue(Trim(first))
    ensures !NamesValue(Trim(first)) ==> !Decides(readers, Some(first + rest), cookieName)
  {
    FirstPart(first, rest);
    PiecesOf(Trim(first));
    if first + rest == "" { TrimIsTrimmed(""); }
  }

  lemma FirstPart(first: string, rest: string)
    requires Free(first, ';') && (rest == "" || rest[0] == ';')
    ensures Split(first + rest, ';')[0] == first
  {
    if rest == "" {
      SplitWhole(first, ';');
      assert first + rest == first;
    } else {
      SplitFirst(first, ';', rest[1..]);
      assert first + [';'] + rest[1..] == first + rest;
    }
  }
}
