// The dictionaries of uploaded files: how submit stores them in two columns
// (lms_interface.py), and what get_submission hands out for them
// (ext_interface.py).  A dictionary too long for its column is stored as a
// document of its own, and the column names that document's URL.
module FileDicts {
  import opened Collections
  import opened Submissions
  import opened Json

  const KEY_MARKER := "KEY_FOR_EXTERNAL_DICTS"
  const URL_MARKER := "URL_FOR_EXTERNAL_DICTS"

  /** What a submission's uploads depend on: the hash, the storage's URLs, the header and the queue. */
  datatype Setup = Setup(hash: string -> string, url: string -> string, header: string, queue: string)

  /** os.path.join */
  function JoinPath(dir: string, name: string): string {
    if name != "" && name[0] == '/' then name
    else if dir == "" || dir[|dir| - 1] == '/' then dir + name
    else dir + "/" + name
  }

  function KeyOf(u: Setup): string -> string {
    name => u.hash(u.header + name)
  }

  function UrlOf(u: Setup): string -> string {
    name => u.url(JoinPath(u.queue, u.hash(u.header + name)))
  }

  /** The dictionary from each name to its text, in the order of the names. */
  function Entries(names: seq<string>, text: string -> string): Members {
    if names == [] then End else Member(names[0], Str(text(names[0])), Entries(names[1..], text))
  }

  function Keys(u: Setup, names: seq<string>): Value { Obj(Entries(names, KeyOf(u))) }
  function Urls(u: Setup, names: seq<string>): Value { Obj(Entries(names, UrlOf(u))) }

  /** json.dumps of a list of names */
  function DumpsNames(names: seq<string>): string {
    "[" + Joined(names) + "]"
  }

  function Joined(names: seq<string>): string {
    if names == [] then ""
    else Quoted(names[0]) + (if |names| == 1 then "" else ", " + Joined(names[1..]))
  }

  function DictKey(u: Setup, names: seq<string>): string {
    u.hash(u.header + DumpsNames(names))
  }

  function DictPath(u: Setup, names: seq<string>): string {
    JoinPath(u.queue, DictKey(u, names))
  }

  /** The document stored for dictionaries that do not fit. */
  function Document(u: Setup, names: seq<string>): Value {
    Obj(Member("files", Urls(u, names), Member("keys", Keys(u, names), End)))
  }

  /** The one-entry dictionary that stands in a column for an external one. */
  function Stub(marker: string, text: string): Value {
    Obj(Member(marker, Str(text), End))
  }

  predicate Overflows(u: Setup, names: seq<string>) {
    |Dumps(Urls(u, names))| > CHARFIELD_LEN_LARGE
  }

  datatype Columns = Columns(keys: string, urls: string)

  function Encoded(u: Setup, names: seq<string>): Columns {
    if Overflows(u, names) then
      Columns(Dumps(Stub(KEY_MARKER, DictKey(u, names))), Dumps(Stub(URL_MARKER, u.url(DictPath(u, names)))))
    else Columns(Dumps(Keys(u, names)), Dumps(Urls(u, names)))
  }

  // ------------------------------------------------------------------ storing, in place

  datatype Upload = Upload(name: string, content: string)

  function Names(files: seq<Upload>): seq<string> {
    seq(|files|, i requires 0 <= i < |files| => files[i].name)
  }

  /** The storage after uploading the files one by one. */
  function Stored(blobs: map<string, string>, u: Setup, files: seq<Upload>): map<string, string> {
    if files == [] then blobs
    else
      var last := files[|files| - 1];
      Stored(blobs, u, files[..|files| - 1])[JoinPath(u.queue, KeyOf(u)(last.name)) := last.content]
  }

  /** And after storing an external dictionary too, if there is one. */
  function Uploaded(blobs: map<string, string>, u: Setup, files: seq<Upload>): map<string, string> {
    var stored := Stored(blobs, u, files);
    if Overflows(u, Names(files)) then stored[DictPath(u, Names(files)) := Dumps(Document(u, Names(files)))] else stored
  }

  class Storage {
    var blobs: map<string, string>

    constructor ()
      ensures blobs == map[]
    {
      blobs := map[];
    }

    /** Stores the content and returns the URL it can be fetched from. */
    method Upload(content: string, u: Setup, key: string) returns (url: string)
      modifies this
      ensures blobs == old(blobs)[JoinPath(u.queue, key) := content]
      ensures url == u.url(JoinPath(u.queue, key))
    {
      var fullPath := JoinPath(u.queue, key);
      blobs := blobs[fullPath := content];
      url := u.url(fullPath);
    }

    /** The part of submit that stores the files and computes the two columns. */
    method EncodeFiles(u: Setup, files: seq<Upload>) returns (columns: Columns)
      requires Distinct(Names(files))
      modifies this
      ensures columns == Encoded(u, Names(files))
      ensures blobs == Uploaded(old(blobs), u, files)
    {
      var keys, urls := End, End;
      ghost var names := Names(files);
      for i := 0 to |files|
        invariant keys == Entries(names[..i], KeyOf(u))
        invariant urls == Entries(names[..i], UrlOf(u))
        invariant blobs == Stored(old(blobs), u, files[..i])
      {
        var key := u.hash(u.header + files[i].name);
        var url := Upload(files[i].content, u, key);
        PutNextEntry(names, i, KeyOf(u));
        PutNextEntry(names, i, UrlOf(u));
        keys := Put(keys, files[i].name, Str(key));
        urls := Put(urls, files[i].name, Str(url));
        assert files[..i + 1][..i] == files[..i];
      }
      assert names[..|files|] == names && files[..|files|] == files;
      var urlsJson, keysJson := Dumps(Obj(urls)), Dumps(Obj(keys));
      if |urlsJson| > CHARFIELD_LEN_LARGE {
        var key := u.hash(u.header + DumpsNames(Names(files)));
        var url := Upload(Dumps(Obj(Member("files", Obj(urls), Member("keys", Obj(keys), End)))), u, key);
        urlsJson := Dumps(Obj(Member(URL_MARKER, Str(url), End)));
        keysJson := Dumps(Obj(Member(KEY_MARKER, Str(key), End)));
      }
      columns := Columns(keysJson, urlsJson);
    }
  }

  lemma {:induction false} EntriesHas(names: seq<string>, text: string -> string, name: string)
    ensures Has(Entries(names, text), name) <==> name in names
  {
    if names != [] {
      EntriesHas(names[1..], text, name);
      assert names == [names[0]] + names[1..];
    }
  }

  lemma {:induction false} EntriesAppend(names: seq<string>, last: string, text: string -> string)
    ensures Entries(names + [last], text) == Append(Entries(names, text), Member(last, Str(text(last)), End))
  {
    if names == [] {
      assert ([] + [last])[1..] == [];
    } else {
      EntriesAppend(names[1..], last, text);
      assert (names + [last])[1..] == names[1..] + [last];
    }
  }

  /** dict.update with a name not seen yet */
  lemma PutNextEntry(names: seq<string>, i: nat, text: string -> string)
    requires i < |names| && Distinct(names)
    ensures Put(Entries(names[..i], text), names[i], Str(text(names[i]))) == Entries(names[..i + 1], text)
  {
    EntriesHas(names[..i], text, names[i]);
    PutNew(Entries(names[..i], text), names[i], Str(text(names[i])));
    EntriesAppend(names[..i], names[i], text);
    assert names[..i] + [names[i]] == names[..i + 1];
  }

  lemma {:induction false} EntriesAreDistinct(names: seq<string>, text: string -> string)
    requires Distinct(names)
    ensures AreDistinct(Entries(names, text))
  {
    if names != [] {
      EntriesAreDistinct(names[1..], text);
      EntriesHas(names[1..], text, names[0]);
    }
  }

  // ------------------------------------------------------------------ for a grader

  datatype Reply = Files(text: string) | FetchFailed | ServerError

  predicate OccursAt(s: string, needle: string, i: nat) {
    i + |needle| <= |s| && s[i..i + |needle|] == needle
  }

  /** needle in s */
  predicate Contains(s: string, needle: string) {
    exists i: nat :: i <= |s| && OccursAt(s, needle, i)
  }

  /** The xqueue_files entry of get_submission's reply.  `fetch` answers the request for a URL: the
      text, or None for an error or a status other than 200.  ServerError is an exception that the
      handler does not catch. */
  function FilesForGrader(urls: string, fetch: string -> Option<string>): Reply {
    match (if urls == "" then Some(Obj(End)) else Loads(urls))
    case None => ServerError
    case Some(dict) =>
      if !Contains(urls, URL_MARKER) then Files(urls)
      else if !dict.Obj? then ServerError
      else
        match Lookup(dict.members, URL_MARKER)
        case Some(Str(url)) =>
          (match fetch(url)
           case None => FetchFailed
           case Some(text) =>
             match Loads(text)
             case Some(Obj(ms)) =>
               (match Lookup(ms, "files") case Some(files) => Files(Dumps(files)) case None => ServerError)
             case _ => ServerError)
        case _ => ServerError
  }

  /** A column without the marker is handed out as it is, if it is empty or can be parsed. */
  lemma PlainColumn(urls: string, fetch: string -> Option<string>)
    requires !Contains(urls, URL_MARKER)
    ensures FilesForGrader(urls, fetch) == if urls == "" || Loads(urls).Some? then Files(urls) else ServerError
  {
  }

  // ------------------------------------------------ where the marker occurs in a column

  /** A gap of characters foreign to the needle separates its occurrences. */
  lemma ContainsAround(a: string, gap: string, b: string, needle: string)
    requires gap != "" && needle != "" && forall c :: c in gap ==> c !in needle
    ensures Contains(a + gap + b, needle) <==> Contains(a, needle) || Contains(b, needle)
  {
    var s, n := a + gap + b, |needle|;
    if Contains(s, needle) {
      var i: nat :| i <= |s| && OccursAt(s, needle, i);
      if i + n <= |a| {
        assert OccursAt(a, needle, i) by { assert a[i..i + n] == s[i..i + n]; }
      } else if i >= |a| + |gap| {
        OccursAfter(a + gap, b, needle, i);
      } else {
        OverlapShares(a, gap, b, needle, i);
      }
    }
    if Contains(a, needle) { ContainsWithin("", a, gap + b, needle); assert s == "" + a + (gap + b); }
    if Contains(b, needle) { ContainsWithin(a + gap, b, "", needle); assert s == a + gap + b + ""; }
  }

  lemma OccursAfter(a: string, b: string, needle: string, i: nat)
    requires OccursAt(a + b, needle, i) && i >= |a|
    ensures OccursAt(b, needle, i - |a|)
  {
    assert (a + b)[i..i + |needle|] == b[i - |a|..i - |a| + |needle|];
  }

  lemma OverlapShares(a: string, gap: string, b: string, needle: string, i: nat)
    requires OccursAt(a + gap + b, needle, i) && needle != "" && gap != ""
    requires |a| < i + |needle| && i < |a| + |gap|
    ensures exists c :: c in gap && c in needle
  {
    var s, n := a + gap + b, |needle|;
    var p := if i < |a| then |a| else i;
    assert gap[p - |a|] == s[p] == s[i..i + n][p - i] == needle[p - i];
    assert gap[p - |a|] in gap && needle[p - i] in needle;
  }

  lemma ContainsWithin(a: string, s: string, b: string, needle: string)
    requires Contains(s, needle)
    ensures Contains(a + s + b, needle)
  {
    var i: nat :| i <= |s| && OccursAt(s, needle, i);
    var whole, j, n := a + s + b, |a| + i, |needle|;
    assert whole[j..j + n] == s[i..i + n];
    assert OccursAt(whole, needle, j);
  }

  /** Made of capital letters and underscores, like the marker. */
  predicate IsMarker(needle: string) {
    needle != "" && forall c :: c in needle ==> 'A' <= c <= 'Z' || c == '_'
  }

  lemma EscapeIsForeign(c: char, needle: string)
    requires IsMarker(needle)
    ensures Escaped(c) == [c] || (c !in needle && forall d :: d in Escaped(c) ==> d !in needle)
  {
    assert forall d: nat | d < 16 :: !('A' <= HexDigit(d) <= 'Z') && HexDigit(d) != '_';
  }

  lemma ForeignEscape(before: string, c: char, rest: string, needle: string)
    requires IsMarker(needle) && Escaped(c) != [c]
    requires Contains("" + EscapedText(rest), needle) <==> Contains("" + rest, needle)
    ensures Contains(before + Escaped(c) + EscapedText(rest), needle) <==> Contains(before + [c] + rest, needle)
  {
    EscapeIsForeign(c, needle);
    ContainsAround(before, Escaped(c), EscapedText(rest), needle);
    ContainsAround(before, [c], rest, needle);
    assert "" + EscapedText(rest) == EscapedText(rest) && "" + rest == rest;
  }

  /** Escaping neither makes nor breaks an occurrence. */
  lemma {:induction false} ContainsEscaped(before: string, s: string, needle: string)
    requires IsMarker(needle)
    ensures Contains(before + EscapedText(s), needle) <==> Contains(before + s, needle)
    decreases |s|
  {
    if s != "" {
      var c, rest := s[0], s[1..];
      assert s == [c] + rest && before + s == before + [c] + rest;
      assert before + EscapedText(s) == before + Escaped(c) + EscapedText(rest);
      if Escaped(c) == [c] {
        ContainsEscaped(before + [c], rest, needle);
      } else {
        ContainsEscaped("", rest, needle);
        ForeignEscape(before, c, rest, needle);
      }
    }
  }

  lemma EmptyContains(needle: string)
    requires needle != ""
    ensures !Contains("", needle)
  {
  }

  /** In a quoted text with foreign text around it, the needle occurs as in the text itself. */
  lemma ContainsQuoted(a: string, text: string, b: string, needle: string)
    requires IsMarker(needle)
    requires forall c :: c in a ==> c !in needle
    ensures Contains(a + Quoted(text) + b, needle) <==> Contains(text, needle) || Contains(b, needle)
  {
    assert a + Quoted(text) + b == "" + (a + "\"") + (EscapedText(text) + "\"" + b);
    ContainsAround("", a + "\"", EscapedText(text) + "\"" + b, needle);
    EmptyContains(needle);
    ContainsAround(EscapedText(text), "\"", b, needle);
    ContainsEscaped("", text, needle);
    assert "" + EscapedText(text) == EscapedText(text) && "" + text == text;
  }

  predicate MentionedIn(names: seq<string>, text: string -> string, needle: string) {
    exists name | name in names :: Contains(name, needle) || Contains(text(name), needle)
  }

  lemma {:induction false} ContainsMembers(names: seq<string>, text: string -> string, needle: string)
    requires IsMarker(needle)
    ensures Contains(DumpsMembers(Entries(names, text)), needle) <==> MentionedIn(names, text, needle)
  {
    if names == [] {
      EmptyContains(needle);
    } else {
      var name, rest := names[0], names[1..];
      var ms := Entries(rest, text);
      assert names == [name] + rest;
      ContainsMembers(rest, text, needle);
      ContainsMember(name, text(name), ms, needle);
    }
  }

  lemma ContainsMember(name: string, text: string, rest: Members, needle: string)
    requires IsMarker(needle)
    ensures Contains(DumpsMembers(Member(name, Str(text), rest)), needle)
            <==> Contains(name, needle) || Contains(text, needle) || Contains(DumpsMembers(rest), needle)
  {
    var tail := if rest.End? then "" else ", " + DumpsMembers(rest);
    var afterName := ": " + Quoted(text) + tail;
    MemberText(name, text, rest, tail);
    ContainsQuoted("", name, afterName, needle);
    ContainsQuoted(": ", text, tail, needle);
    EmptyContains(needle);
    if !rest.End? {
      ContainsAround("", ", ", DumpsMembers(rest), needle);
      assert "" + ", " + DumpsMembers(rest) == tail;
    }
  }

  lemma MemberText(name: string, text: string, rest: Members, tail: string)
    requires tail == if rest.End? then "" else ", " + DumpsMembers(rest)
    ensures DumpsMembers(Member(name, Str(text), rest)) == "" + Quoted(name) + (": " + Quoted(text) + tail)
  {
    var n, t := Quoted(name), Quoted(text);
    Assoc(n, ": ", t);
    Assoc(n, ": " + t, tail);
    assert "" + n == n;
  }

  lemma ContainsInBraces(body: string, needle: string)
    requires IsMarker(needle)
    ensures Contains("{" + body + "}", needle) <==> Contains(body, needle)
  {
    ContainsAround("", "{", body + "}", needle);
    assert "" + "{" + (body + "}") == "{" + body + "}";
    ContainsAround(body, "}", "", needle);
    assert body + "}" + "" == body + "}";
    EmptyContains(needle);
  }

  lemma NeedleInColumn(names: seq<string>, text: string -> string, needle: string)
    requires IsMarker(needle)
    ensures Contains(Dumps(Obj(Entries(names, text))), needle) <==> MentionedIn(names, text, needle)
  {
    ContainsInBraces(DumpsMembers(Entries(names, text)), needle);
    ContainsMembers(names, text, needle);
  }

  /** The marker occurs in an inline column exactly if it occurs in a file's name or URL. */
  lemma MarkerInColumn(names: seq<string>, text: string -> string)
    ensures Contains(Dumps(Obj(Entries(names, text))), URL_MARKER) <==> MentionedIn(names, text, URL_MARKER)
  {
    NeedleInColumn(names, text, URL_MARKER);
  }

  // ------------------------------------------------------------------------ round trip

  /** The storage gives back the document that was stored. */
  ghost predicate Honest(u: Setup, names: seq<string>, fetch: string -> Option<string>) {
    Overflows(u, names) ==> fetch(u.url(DictPath(u, names))) == Some(Dumps(Document(u, names)))
  }

  lemma OverflowRoundTrip(u: Setup, names: seq<string>, fetch: string -> Option<string>)
    requires Distinct(names) && Overflows(u, names) && Honest(u, names, fetch)
    ensures FilesForGrader(Encoded(u, names).urls, fetch) == Files(Dumps(Urls(u, names)))
  {
    StubContainsMarker(u.url(DictPath(u, names)));
    StubRoundTrip(URL_MARKER, u.url(DictPath(u, names)));
    DocumentRoundTrip(u, names);
    ExternalReply(Encoded(u, names).urls, u.url(DictPath(u, names)), fetch, Dumps(Document(u, names)),
                  Document(u, names).members);
  }

  /** A fetch of the document that fails is told as such, and nothing else is. */
  lemma OverflowFetchFails(u: Setup, names: seq<string>, fetch: string -> Option<string>)
    requires Overflows(u, names)
    ensures FilesForGrader(Encoded(u, names).urls, fetch) == FetchFailed
            <==> fetch(u.url(DictPath(u, names))) == None
  {
    StubContainsMarker(u.url(DictPath(u, names)));
    StubRoundTrip(URL_MARKER, u.url(DictPath(u, names)));
    ExternalFails(Encoded(u, names).urls, u.url(DictPath(u, names)), fetch);
  }

  lemma ExternalFails(urls: string, url: string, fetch: string -> Option<string>)
    requires urls != "" && Loads(urls) == Some(Stub(URL_MARKER, url)) && Contains(urls, URL_MARKER)
    requires Lookup(Stub(URL_MARKER, url).members, URL_MARKER) == Some(Str(url))
    ensures FilesForGrader(urls, fetch) == FetchFailed <==> fetch(url) == None
  {
  }

  /** What a grader gets through a stub, if its URL answers with a document that has a "files" entry. */
  lemma ExternalReply(urls: string, url: string, fetch: string -> Option<string>, text: string, ms: Members)
    requires urls != "" && Loads(urls) == Some(Stub(URL_MARKER, url)) && Contains(urls, URL_MARKER)
    requires Lookup(Stub(URL_MARKER, url).members, URL_MARKER) == Some(Str(url))
    requires fetch(url) == Some(text) && Loads(text) == Some(Obj(ms)) && Lookup(ms, "files").Some?
    ensures FilesForGrader(urls, fetch) == Files(Dumps(Lookup(ms, "files").value))
  {
  }

  lemma StubRoundTrip(marker: string, text: string)
    ensures Loads(Dumps(Stub(marker, text))) == Some(Stub(marker, text))
    ensures Lookup(Stub(marker, text).members, marker) == Some(Str(text))
  {
    RoundTrip(Stub(marker, text));
  }

  lemma DocumentRoundTrip(u: Setup, names: seq<string>)
    requires Distinct(names)
    ensures Loads(Dumps(Document(u, names))) == Some(Document(u, names))
    ensures Lookup(Document(u, names).members, "files") == Some(Urls(u, names))
  {
    EntriesAreDistinct(names, UrlOf(u));
    EntriesAreDistinct(names, KeyOf(u));
    var keys := Member("keys", Keys(u, names), End);
    assert |"keys"| != |"files"| && Lookup(End, "files") == None;
    assert AreDistinct(keys);
    RoundTrip(Document(u, names));
  }

  lemma StubContains(needle: string, url: string)
    requires IsMarker(needle)
    ensures Contains(Dumps(Stub(needle, url)), needle)
  {
    var text := (_: string) => url;
    NeedleInColumn([needle], text, needle);
    assert Entries([needle], text) == Member(needle, Str(url), End);
    assert OccursAt(needle, needle, 0);
  }

  lemma StubContainsMarker(url: string)
    ensures Contains(Dumps(Stub(URL_MARKER, url)), URL_MARKER)
  {
    StubContains(URL_MARKER, url);
  }

  lemma InlineRoundTrip(u: Setup, names: seq<string>, fetch: string -> Option<string>)
    requires Distinct(names) && !Overflows(u, names)
    ensures !MentionedIn(names, UrlOf(u), URL_MARKER) ==>
              FilesForGrader(Encoded(u, names).urls, fetch) == Files(Dumps(Urls(u, names)))
    ensures MentionedIn(names, UrlOf(u), URL_MARKER) && URL_MARKER !in names ==>
              FilesForGrader(Encoded(u, names).urls, fetch) == ServerError
    ensures MentionedIn(names, UrlOf(u), URL_MARKER) && URL_MARKER in names && fetch(UrlOf(u)(URL_MARKER)).None? ==>
              FilesForGrader(Encoded(u, names).urls, fetch) == FetchFailed
  {
    EntriesAreDistinct(names, UrlOf(u));
    RoundTrip(Urls(u, names));
    MarkerInColumn(names, UrlOf(u));
    EntriesHas(names, UrlOf(u), URL_MARKER);
    EntriesLookup(names, UrlOf(u), URL_MARKER);
    InlineReply(Encoded(u, names).urls, Urls(u, names).members, fetch);
  }

  /** What a column does by whether it has the marker, as text and as a name. */
  lemma InlineReply(urls: string, ms: Members, fetch: string -> Option<string>)
    requires urls != "" && Loads(urls) == Some(Obj(ms))
    ensures !Contains(urls, URL_MARKER) ==> FilesForGrader(urls, fetch) == Files(urls)
    ensures Contains(urls, URL_MARKER) && Lookup(ms, URL_MARKER) == None ==> FilesForGrader(urls, fetch) == ServerError
    ensures forall url: string ::
              Contains(urls, URL_MARKER) && Lookup(ms, URL_MARKER) == Some(Str(url)) && fetch(url) == None ==>
                FilesForGrader(urls, fetch) == FetchFailed
  {
  }

  lemma {:induction false} EntriesLookup(names: seq<string>, text: string -> string, name: string)
    ensures name in names ==> Lookup(Entries(names, text), name) == Some(Str(text(name)))
  {
    if names != [] {
      EntriesLookup(names[1..], text, name);
      assert names == [names[0]] + names[1..];
    }
  }

  /** A grader is sure to receive exactly the dictionary of file URLs, whatever else the storage
      answers, if and only if the dictionary overflows its column or no file's name or URL contains the
      marker. */
  lemma FileDictRoundTrip(u: Setup, names: seq<string>)
    requires Distinct(names)
    ensures (forall fetch: string -> Option<string> | Honest(u, names, fetch) ::
               FilesForGrader(Encoded(u, names).urls, fetch) == Files(Dumps(Urls(u, names))))
            <==> Overflows(u, names) || !MentionedIn(names, UrlOf(u), URL_MARKER)
  {
    if Overflows(u, names) || !MentionedIn(names, UrlOf(u), URL_MARKER) {
      forall fetch: string -> Option<string> | Honest(u, names, fetch)
        ensures FilesForGrader(Encoded(u, names).urls, fetch) == Files(Dumps(Urls(u, names)))
      {
        if Overflows(u, names) { OverflowRoundTrip(u, names, fetch); } else { InlineRoundTrip(u, names, fetch); }
      }
    } else {
      var nothing: string -> Option<string> := _ => None;
      InlineRoundTrip(u, names, nothing);
      assert Honest(u, names, nothing);
    }
  }

  // ------------------------------------------------------------- what the columns say

  /** A file's key is the hash of the header and its name, its URL that of the key under its queue. */
  lemma EntriesName(u: Setup, names: seq<string>, name: string)
    requires name in names
    ensures Lookup(Keys(u, names).members, name) == Some(Str(u.hash(u.header + name)))
    ensures u.queue != "" && u.queue[|u.queue| - 1] != '/' && !("/" <= u.hash(u.header + name)) ==>
              Lookup(Urls(u, names).members, name) == Some(Str(u.url(u.queue + "/" + u.hash(u.header + name))))
  {
    EntriesLookup(names, KeyOf(u), name);
    EntriesLookup(names, UrlOf(u), name);
  }

  /** The two columns are the dumped dictionaries as long as the one of URLs has at most 1024 characters, and
      otherwise one entry each, for the document stored under the hash of the header and the dumped names. */
  lemma ColumnsAre(u: Setup, names: seq<string>)
    ensures |Dumps(Urls(u, names))| <= 1024 ==>
              Encoded(u, names) == Columns(Dumps(Keys(u, names)), Dumps(Urls(u, names)))
    ensures |Dumps(Urls(u, names))| > 1024 ==>
              var key := u.hash(u.header + DumpsNames(names));
              && Encoded(u, names).keys == "{" + (Quoted("KEY_FOR_EXTERNAL_DICTS") + ": " + Quoted(key)) + "}"
              && Encoded(u, names).urls
                 == "{" + (Quoted("URL_FOR_EXTERNAL_DICTS") + ": " + Quoted(u.url(JoinPath(u.queue, key)))) + "}"
  {
    if |Dumps(Urls(u, names))| > 1024 {
      StubText(KEY_MARKER, DictKey(u, names));
      StubText(URL_MARKER, u.url(DictPath(u, names)));
    }
  }

  lemma StubText(marker: string, text: string)
    ensures Dumps(Stub(marker, text)) == "{" + (Quoted(marker) + ": " + Quoted(text)) + "}"
  {
    assert DumpsMembers(Member(marker, Str(text), End)) == Quoted(marker) + ": " + Quoted(text) + ""
           == Quoted(marker) + ": " + Quoted(text);
  }

  /** What is stored under a file's path is that file, unless a later one has the same path. */
  lemma {:induction false} StoredFile(blobs: map<string, string>, u: Setup, files: seq<Upload>, i: nat)
    requires i < |files|
    requires forall j | i < j < |files| ::
               JoinPath(u.queue, u.hash(u.header + files[j].name))
               != JoinPath(u.queue, u.hash(u.header + files[i].name))
    ensures var path := JoinPath(u.queue, u.hash(u.header + files[i].name));
            path in Stored(blobs, u, files) && Stored(blobs, u, files)[path] == files[i].content
  {
    if i < |files| - 1 { StoredFile(blobs, u, files[..|files| - 1], i); }
  }

  // --------------------------------------------------------------------- column bounds

  predicate IsPlain(s: string) {
    forall c | c in s :: IsPrintable(c) && c != '"' && c != '\\'
  }

  lemma EscapedCharLength(c: char)
    ensures |Escaped(c)| >= 1
    ensures IsPlain([c]) ==> |Escaped(c)| == 1
  {
    assert c in [c];
  }

  lemma {:induction false} EscapedLength(s: string)
    ensures |EscapedText(s)| >= |s|
    ensures IsPlain(s) ==> |EscapedText(s)| == |s|
  {
    if s != "" {
      EscapedLength(s[1..]);
      EscapedCharLength(s[0]);
      assert s[0] in s && forall c | c in s[1..] :: c in s;
    }
  }

  /** Hash keys are 32 hex digits. */
  ghost predicate IsHexHash(hash: string -> string) {
    forall seed: string :: |hash(seed)| == 32 && IsPlain(hash(seed))
  }

  lemma {:induction false} ShorterDict(names: seq<string>, a: string -> string, b: string -> string)
    requires forall name | name in names :: IsPlain(a(name)) && |a(name)| <= |b(name)|
    ensures |DumpsMembers(Entries(names, a))| <= |DumpsMembers(Entries(names, b))|
    ensures Entries(names, a).End? == Entries(names, b).End?
  {
    if names != [] {
      assert names[0] in names;
      ShorterDict(names[1..], a, b);
      EscapedLength(a(names[0]));
      EscapedLength(b(names[0]));
    }
  }

  lemma StubLength(marker: string, text: string)
    requires IsPlain(marker)
    ensures |Dumps(Stub(marker, text))| == |marker| + |EscapedText(text)| + 8
  {
    EscapedLength(marker);
    assert DumpsMembers(Member(marker, Str(text), End)) == Quoted(marker) + ": " + Quoted(text) + "";
    assert |Quoted(marker)| == |marker| + 2 && |Quoted(text)| == |EscapedText(text)| + 2;
  }

  /** Checking the length of the URL column is enough: the key column is never longer.  An external
      dictionary's columns fit if and only if its escaped URL is at most 994 characters long. */
  lemma ColumnsFit(u: Setup, names: seq<string>)
    requires IsHexHash(u.hash)
    requires forall name | name in names :: |UrlOf(u)(name)| >= |KeyOf(u)(name)|
    ensures var c := Encoded(u, names);
            && |c.keys| <= 1024
            && (!Overflows(u, names) ==> |c.keys| <= |c.urls| <= 1024)
            && (Overflows(u, names) ==>
                  (|c.urls| <= 1024 <==> |EscapedText(u.url(DictPath(u, names)))| <= 994))
  {
    if Overflows(u, names) {
      ExternalColumns(DictKey(u, names), u.url(DictPath(u, names)));
      HexIsPlain(u.hash, u.header + DumpsNames(names));
    } else {
      InlineColumns(u, names);
    }
  }

  lemma KeyMarkerIsPlain()
    ensures IsPlain(KEY_MARKER) && |KEY_MARKER| == 22
  {
  }

  lemma UrlMarkerIsPlain()
    ensures IsPlain(URL_MARKER) && |URL_MARKER| == 22
  {
  }

  lemma ExternalColumns(key: string, url: string)
    ensures |Dumps(Stub(KEY_MARKER, key))| == 30 + |EscapedText(key)|
    ensures |Dumps(Stub(URL_MARKER, url))| == 30 + |EscapedText(url)|
  {
    KeyMarkerIsPlain();
    UrlMarkerIsPlain();
    StubLength(KEY_MARKER, key);
    StubLength(URL_MARKER, url);
  }

  lemma HexIsPlain(hash: string -> string, seed: string)
    requires IsHexHash(hash)
    ensures |EscapedText(hash(seed))| == 32
  {
    EscapedLength(hash(seed));
  }

  lemma InlineColumns(u: Setup, names: seq<string>)
    requires IsHexHash(u.hash)
    requires forall name | name in names :: |UrlOf(u)(name)| >= |KeyOf(u)(name)|
    ensures |Dumps(Keys(u, names))| <= |Dumps(Urls(u, names))|
  {
    ShorterDict(names, KeyOf(u), UrlOf(u));
  }
}
