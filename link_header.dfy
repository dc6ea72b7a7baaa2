/**
 * `parseLinkHeader` of src/utils/parseLinkHeader.ts: reads the pagination
 * links out of an HTTP `Link` header such as
 * `<https://host/issues?page=2>; rel="next", <https://host/issues?page=30>; rel="last"`.
 *
 * The header is cut at every `,` into entries and each entry at every `;`
 * into a `<uri>` part and parameters. An entry is ignored when it has no
 * parameter or its trimmed first part is not wrapped in angle brackets. The
 * last `rel=` parameter of an entry names its relation, and the last entry
 * naming `first`, `next`, `prev` or `last` decides that link.
 */
module LinkHeader {
  import opened Wrappers
  import opened JsStrings

  /** The relations the parser records. */
  datatype Rel = First | Next | Prev | Last

  /** The `switch (rel)`: the recorded relation a `rel` value names, if any. */
  function RelNamed(rel: string): (r: Option<Rel>)
    ensures r == Some(First) <==> rel == "first"
    ensures r == Some(Next) <==> rel == "next"
    ensures r == Some(Prev) <==> rel == "prev"
    ensures r == Some(Last) <==> rel == "last"
  {
    if rel == "first" then Some(First)
    else if rel == "next" then Some(Next)
    else if rel == "prev" then Some(Prev)
    else if rel == "last" then Some(Last)
    else None
  }

  /** `RelLinks`: an object with four optional string properties. */
  datatype RelLinks = RelLinks(first: Option<string>, next: Option<string>, prev: Option<string>, last: Option<string>)

  /** The property of `links` for relation `k`. */
  function Lookup(links: RelLinks, k: Rel): Option<string>
  {
    match k
    case First => links.first
    case Next => links.next
    case Prev => links.prev
    case Last => links.last
  }

  /** `links[k] = uri`: that property is set and the other three are kept. */
  function Store(links: RelLinks, k: Rel, uri: string): (r: RelLinks)
    ensures Lookup(r, k) == Some(uri)
    ensures forall k' :: k' != k ==> Lookup(r, k') == Lookup(links, k')
  {
    match k
    case First => links.(first := Some(uri))
    case Next => links.(next := Some(uri))
    case Prev => links.(prev := Some(uri))
    case Last => links.(last := Some(uri))
  }

  // ---------------------------------------------------------------------------
  // Parameters
  // ---------------------------------------------------------------------------

  /** A value wrapped in double quotes loses them (a lone `"` becomes empty). */
  function Unquote(v: string): (r: string)
    ensures |v| >= 2 && v[0] == '"' && v[|v| - 1] == '"' ==> r == v[1..|v| - 1]
    ensures v == "\"" ==> r == ""
    ensures !(|v| >= 1 && v[0] == '"' && v[|v| - 1] == '"') ==> r == v
  {
    if |v| >= 1 && v[0] == '"' && v[|v| - 1] == '"' then Slice(v, 1, |v| - 1) else v
  }

  /**
   * Splitting at `=` gives at least two pieces, the first being `rel`, exactly
   * when the text starts with `rel=`; the pieces after the first, joined
   * again, are then everything after that first `=`.
   */
  lemma RelKey(t: string)
    ensures (|Split(t, '=')| >= 2 && Split(t, '=')[0] == "rel") <==> (|t| >= 4 && t[..4] == "rel=")
    ensures |t| >= 4 && t[..4] == "rel=" ==> JoinWith(Split(t, '=')[1..], '=') == t[4..]
  {
    var p := Split(t, '=');
    if |t| >= 4 && t[..4] == "rel=" {
      assert t == "rel" + ['='] + t[4..];
      SplitAround("rel", '=', t[4..]);
      SplitWithout("rel", '=');
      assert p == ["rel"] + Split(t[4..], '=');
      assert p[1..] == Split(t[4..], '=');
    }
    if |p| >= 2 && p[0] == "rel" {
      AfterFirstSeparator(t, '=');
      assert t == p[0] + ['='] + JoinWith(p[1..], '=');
      assert t[..4] == "rel=";
    }
  }

  /** The callback of the inner `reduce` applied to one parameter: its `rel` value, if it is a `rel` parameter. */
  function RelParam(param: string): Option<string>
  {
    var fragments := Split(Trim(param), '=');
    if |fragments| < 2 then None
    else if fragments[0] != "rel" then None
    else Some(Unquote(JoinWith(fragments[1..], '=')))
  }

  /**
   * A parameter is a `rel` parameter exactly when its trimmed text starts with
   * `rel=`, and its value is then the rest with surrounding quotes removed;
   * further `=` characters stay in the value.
   */
  lemma RelParamMeaning(param: string)
    ensures RelParam(param).Some? <==> |Trim(param)| >= 4 && Trim(param)[..4] == "rel="
    ensures RelParam(param).Some? ==> RelParam(param).value == Unquote(Trim(param)[4..])
  {
    RelKey(Trim(param));
  }

  /** The inner `reduce` from `""` over the parameters. */
  function RelOf(params: seq<string>): string
    decreases |params|
  {
    if params == [] then ""
    else
      var prev := RelOf(params[..|params| - 1]);
      match RelParam(params[|params| - 1])
      case Some(value) => value
      case None => prev
  }

  /** Each parameter's `rel` value, if it has one. */
  function RelValues(params: seq<string>): (vals: seq<Option<string>>)
    ensures |vals| == |params|
    ensures forall i :: 0 <= i < |params| ==> vals[i] == RelParam(params[i])
  {
    seq(|params|, i requires 0 <= i < |params| => RelParam(params[i]))
  }

  /** The last value present, or `""`. */
  function LastPresent(vals: seq<Option<string>>): string
    decreases |vals|
  {
    if vals == [] then ""
    else if vals[|vals| - 1].Some? then vals[|vals| - 1].value
    else LastPresent(vals[..|vals| - 1])
  }

  lemma {:induction false} RelOfValues(params: seq<string>)
    ensures RelOf(params) == LastPresent(RelValues(params))
    decreases |params|
  {
    if params != [] {
      var n := |params| - 1;
      RelOfValues(params[..n]);
      assert RelValues(params)[..n] == RelValues(params[..n]);
    }
  }

  lemma {:induction false} LastPresentIsLast(vals: seq<Option<string>>)
    ensures (forall i :: 0 <= i < |vals| ==> vals[i].None?) ==> LastPresent(vals) == ""
    ensures forall k :: 0 <= k < |vals| && vals[k].Some? && (forall i :: k < i < |vals| ==> vals[i].None?)
                        ==> LastPresent(vals) == vals[k].value
    decreases |vals|
  {
    if vals != [] {
      var n := |vals| - 1;
      var init := vals[..n];
      LastPresentIsLast(init);
      if vals[n].None? {
        forall k | 0 <= k < n && init[k].Some? && (forall i :: k < i < n ==> init[i].None?)
          ensures LastPresent(init) == vals[k].value
        {
        }
      }
    }
  }

  /** The relation is the value of the last `rel` parameter, or `""` when there is none. */
  lemma RelOfLast(params: seq<string>)
    ensures (forall i :: 0 <= i < |params| ==> RelParam(params[i]).None?) ==> RelOf(params) == ""
    ensures forall k :: 0 <= k < |params| && RelParam(params[k]).Some?
                        && (forall i :: k < i < |params| ==> RelParam(params[i]).None?)
                        ==> RelOf(params) == RelParam(params[k]).value
  {
    RelOfValues(params);
    LastPresentIsLast(RelValues(params));
  }

  // ---------------------------------------------------------------------------
  // Entries
  // ---------------------------------------------------------------------------

  /** One link of the header: its relation text and its URI. */
  datatype Link = Link(rel: string, uri: string)

  /** `<`…`>`: the check made on the trimmed first part of an entry. */
  predicate Angled(u: string)
  {
    |u| >= 1 && u[0] == '<' && u[|u| - 1] == '>'
  }

  /** A string has a second `split` piece exactly when it contains the separator. */
  lemma SplitPieces(s: string, sep: char)
    ensures |Split(s, sep)| >= 2 <==> sep in s
  {
    var p := Split(s, sep);
    if |p| >= 2 {
      assert s == p[0] + [sep] + JoinWith(p[1..], sep);
      assert s[|p[0]|] == sep;
    } else {
      assert s == p[0];
    }
  }

  /** The callback of the outer `reduce` before the `switch`: the entry's link, or nothing when it is skipped. */
  function ParseEntry(linkString: string): Option<Link>
  {
    var uriAndParams := Split(linkString, ';');
    if |uriAndParams| < 2 then None
    else
      var uriString := Trim(uriAndParams[0]);
      if !Angled(uriString) then None
      else Some(Link(RelOf(uriAndParams[1..]), Slice(uriString, 1, |uriString| - 1)))
  }

  /**
   * An entry is kept exactly when it has a `;` and its first part, trimmed,
   * is wrapped in angle brackets.
   */
  lemma ParseEntryKept(linkString: string)
    ensures ParseEntry(linkString).Some? <==> ';' in linkString && Angled(Trim(Split(linkString, ';')[0]))
  {
    SplitPieces(linkString, ';');
  }

  /**
   * A kept entry's URI is what the angle brackets enclose, and its relation
   * comes from the parameters after the first `;`.
   */
  lemma ParseEntryLink(linkString: string)
    requires ParseEntry(linkString).Some?
    ensures ParseEntry(linkString).value.rel == RelOf(Split(linkString, ';')[1..])
    ensures var u := Trim(Split(linkString, ';')[0]);
            && (|u| >= 2 ==> u == "<" + ParseEntry(linkString).value.uri + ">")
            && (|u| == 1 ==> ParseEntry(linkString).value.uri == "")
  {
    var u := Trim(Split(linkString, ';')[0]);
    if |u| >= 2 {
      Enclosed(u);
    }
  }

  lemma Enclosed(u: string)
    requires |u| >= 2 && Angled(u)
    ensures u == "<" + u[1..|u| - 1] + ">"
  {
    assert u == [u[0]] + u[1..|u| - 1] + [u[|u| - 1]];
  }

  /** Every entry of the header, parsed. */
  function ParsedEntries(entries: seq<string>): (parsed: seq<Option<Link>>)
    ensures |parsed| == |entries|
    decreases |entries|
  {
    if entries == [] then [] else ParsedEntries(entries[..|entries| - 1]) + [ParseEntry(entries[|entries| - 1])]
  }

  /** A parsed entry records relation `k` when its `rel` value names it. */
  predicate Records(e: Option<Link>, k: Rel)
  {
    e.Some? && RelNamed(e.value.rel) == Some(k)
  }

  /** The last parsed entry that records relation `k`, if any. */
  function LastRecorder(parsed: seq<Option<Link>>, k: Rel): (r: Option<nat>)
    ensures r.None? <==> forall i :: 0 <= i < |parsed| ==> !Records(parsed[i], k)
    ensures r.Some? ==> && r.value < |parsed| && Records(parsed[r.value], k)
                        && forall i :: r.value < i < |parsed| ==> !Records(parsed[i], k)
    decreases |parsed|
  {
    if |parsed| == 0 then None
    else if Records(parsed[|parsed| - 1], k) then Some(|parsed| - 1)
    else LastRecorder(parsed[..|parsed| - 1], k)
  }

  /** The URI recorded last for relation `k`, or nothing. */
  function Recorded(parsed: seq<Option<Link>>, k: Rel): Option<string>
  {
    var j := LastRecorder(parsed, k);
    if j.Some? then Some(parsed[j.value].value.uri) else None
  }

  /**
   * `links` is what the header's entries describe: for every relation, the
   * URI of the last entry recording it, and nothing when no entry does.
   */
  predicate Describes(entries: seq<string>, links: RelLinks)
  {
    forall k :: Lookup(links, k) == Recorded(ParsedEntries(entries), k)
  }

  /** One more entry replaces the relation it records and keeps the others. */
  lemma RecordedStep(parsed: seq<Option<Link>>, e: Option<Link>, k: Rel)
    ensures Recorded(parsed + [e], k) == if Records(e, k) then Some(e.value.uri) else Recorded(parsed, k)
  {
    var ps := parsed + [e];
    assert ps[..|ps| - 1] == parsed;
  }

  lemma ParsedEntriesStep(entries: seq<string>, i: nat)
    requires i < |entries|
    ensures ParsedEntries(entries[..i + 1]) == ParsedEntries(entries[..i]) + [ParseEntry(entries[i])]
  {
    assert entries[..i + 1][..i] == entries[..i];
  }

  /** `links[rel] = uri` on the accumulator, as the `switch` does. */
  function Apply(links: RelLinks, e: Option<Link>): (r: RelLinks)
    ensures forall k :: Lookup(r, k) == if Records(e, k) then Some(e.value.uri) else Lookup(links, k)
  {
    if e.Some? && RelNamed(e.value.rel).Some? then Store(links, RelNamed(e.value.rel).value, e.value.uri)
    else links
  }

  /** Applying an entry to links that describe some entries describes them and that entry. */
  lemma ApplyRecords(links: RelLinks, parsed: seq<Option<Link>>, e: Option<Link>)
    requires forall k :: Lookup(links, k) == Recorded(parsed, k)
    ensures forall k :: Lookup(Apply(links, e), k) == Recorded(parsed + [e], k)
  {
    forall k
      ensures Lookup(Apply(links, e), k) == Recorded(parsed + [e], k)
    {
      RecordedStep(parsed, e, k);
    }
  }

  /** The callback of the outer `reduce`: one entry applied to the accumulated links. */
  method AddEntry(prev: RelLinks, linkString: string) returns (links: RelLinks)
    ensures links == Apply(prev, ParseEntry(linkString))
  {
    links := prev;
    var uriAndParams := Split(linkString, ';');
    if |uriAndParams| < 2 {
      return;
    }
    var uriString := Trim(uriAndParams[0]);
    if !(|uriString| >= 1 && uriString[0] == '<' && uriString[|uriString| - 1] == '>') {
      return;
    }
    var uri := Slice(uriString, 1, |uriString| - 1);
    var rel := RelOf(uriAndParams[1..]);
    assert ParseEntry(linkString) == Some(Link(rel, uri));
    if rel == "first" {
      links := links.(first := Some(uri));
    } else if rel == "next" {
      links := links.(next := Some(uri));
    } else if rel == "prev" {
      links := links.(prev := Some(uri));
    } else if rel == "last" {
      links := links.(last := Some(uri));
    }
  }

  /** The outer `reduce` from the empty accumulator over the entries. */
  function Reduced(entries: seq<string>): RelLinks
    decreases |entries|
  {
    if entries == [] then RelLinks(None, None, None, None)
    else Apply(Reduced(entries[..|entries| - 1]), ParseEntry(entries[|entries| - 1]))
  }

  lemma ReducedStep(entries: seq<string>, i: nat)
    requires i < |entries|
    ensures Reduced(entries[..i + 1]) == Apply(Reduced(entries[..i]), ParseEntry(entries[i]))
  {
    var prefix := entries[..i + 1];
    assert prefix[..i] == entries[..i] && prefix[i] == entries[i];
  }

  /** The reduction records, for every relation, the URI of the last entry naming it. */
  lemma {:induction false} ReducedDescribes(entries: seq<string>)
    ensures Describes(entries, Reduced(entries))
    decreases |entries|
  {
    if entries != [] {
      var n := |entries| - 1;
      ReducedDescribes(entries[..n]);
      ApplyRecords(Reduced(entries[..n]), ParsedEntries(entries[..n]), ParseEntry(entries[n]));
      ParsedEntriesStep(entries, n);
      assert entries[..n + 1] == entries;
    }
  }

  /** `parseLinkHeader(headerString)`: the outer `reduce` over the entries as a loop. */
  method ParseLinkHeader(headerString: string) returns (links: RelLinks)
    ensures links == Reduced(Split(headerString, ','))
    ensures Describes(Split(headerString, ','), links)
  {
    var linkStrings := Split(headerString, ',');
    links := RelLinks(None, None, None, None);
    var i := 0;
    while i < |linkStrings|
      invariant 0 <= i <= |linkStrings|
      invariant links == Reduced(linkStrings[..i])
    {
      links := AddEntry(links, linkStrings[i]);
      ReducedStep(linkStrings, i);
      i := i + 1;
    }
    assert linkStrings[..|linkStrings|] == linkStrings;
    ReducedDescribes(linkStrings);
  }

  // ---------------------------------------------------------------------------
  // The header of the source's test
  // ---------------------------------------------------------------------------

  /** Lookups decide a `RelLinks` value, so a description has one solution. */
  lemma DescribesUnique(entries: seq<string>, a: RelLinks, b: RelLinks)
    requires Describes(entries, a) && Describes(entries, b)
    ensures a == b
  {
    assert Lookup(a, First) == Lookup(b, First) && Lookup(a, Next) == Lookup(b, Next);
    assert Lookup(a, Prev) == Lookup(b, Prev) && Lookup(a, Last) == Lookup(b, Last);
  }

  lemma RelParamOfTrimmed(param: string, t: string)
    requires Trim(param) == t && |t| >= 4 && t[..4] == "rel="
    ensures RelParam(param) == Some(Unquote(t[4..]))
  {
    RelParamMeaning(param);
  }

  lemma QuotedTrim(param: string, name: string)
    requires param == " rel=\"" + name + "\""
    ensures Trim(param) == "rel=\"" + name + "\""
  {
    var t := "rel=\"" + name + "\"";
    assert param == [' '] + t;
    assert t[0] == 'r' && t[|t| - 1] == '"';
    TrimLeadingSpace(t);
  }

  lemma QuotedValue(t: string, name: string)
    requires t == "rel=\"" + name + "\""
    ensures |t| >= 4 && t[..4] == "rel=" && Unquote(t[4..]) == name
  {
    var q := ['"'] + name + ['"'];
    assert t[..4] == "rel=" && t[4..] == q;
    assert q[1..|q| - 1] == name;
  }

  /** The parameter ` rel="name"` gives `name`. */
  lemma RelParamQuoted(param: string, name: string)
    requires param == " rel=\"" + name + "\""
    ensures RelParam(param) == Some(name)
  {
    var t := "rel=\"" + name + "\"";
    QuotedTrim(param, name);
    QuotedValue(t, name);
    RelParamOfTrimmed(param, t);
  }

  lemma RelOfOne(param: string)
    ensures RelOf([param]) == if RelParam(param).Some? then RelParam(param).value else ""
  {
    assert [param][..0] == [];
  }

  lemma SplitInTwo(s: string, sep: char, front: string, back: string)
    requires s == front + [sep] + back && sep !in front && sep !in back
    ensures Split(s, sep) == [front, back]
  {
    SplitAround(front, sep, back);
    SplitWithout(front, sep);
    SplitWithout(back, sep);
  }

  lemma AngledTrim(front: string, lead: string, uri: string)
    requires (lead == "" || lead == " ") && front == lead + "<" + uri + ">"
    ensures Trim(front) == "<" + uri + ">"
  {
    var angled := "<" + uri + ">";
    if lead == "" {
      assert front == angled;
      TrimKeeps(angled);
    } else {
      assert front == [' '] + angled;
      TrimLeadingSpace(angled);
    }
  }

  lemma EntryParts(entry: string, lead: string, uri: string, name: string)
    requires lead == "" || lead == " "
    requires ';' !in uri && ';' !in name
    requires entry == lead + "<" + uri + ">; rel=\"" + name + "\""
    ensures Split(entry, ';') == [lead + "<" + uri + ">", " rel=\"" + name + "\""]
    ensures Trim(lead + "<" + uri + ">") == "<" + uri + ">"
  {
    var front := lead + "<" + uri + ">";
    var param := " rel=\"" + name + "\"";
    assert entry == front + [';'] + param;
    assert ';' !in front && ';' !in param;
    SplitInTwo(entry, ';', front, param);
    AngledTrim(front, lead, uri);
  }

  /** An entry `<uri>; rel="name"`, optionally preceded by a space. */
  lemma EntryParsed(entry: string, lead: string, uri: string, name: string)
    requires lead == "" || lead == " "
    requires ';' !in uri && ';' !in name
    requires entry == lead + "<" + uri + ">; rel=\"" + name + "\""
    ensures ParseEntry(entry) == Some(Link(name, uri))
  {
    EntryParts(entry, lead, uri, name);
    var param := " rel=\"" + name + "\"";
    var parts := Split(entry, ';');
    assert parts[1..] == [param];
    RelParamQuoted(param, name);
    RelOfOne(param);
    var angled := "<" + uri + ">";
    assert angled[1..|angled| - 1] == uri;
  }

  lemma ParsedTwo(entries: seq<string>, e1: string, e2: string)
    requires entries == [e1, e2]
    ensures ParsedEntries(entries) == [ParseEntry(e1), ParseEntry(e2)]
  {
    assert entries[..1] == [e1];
    assert [e1][..0] == [];
  }

  /**
   * Two entries `<u1>; rel="next", <u2>; rel="last"` give `next` and `last`
   * and leave `first` and `prev` unset, for any URIs without `,` or `;`.
   */
  lemma NextAndLast(header: string, u1: string, u2: string)
    requires ',' !in u1 && ';' !in u1 && ',' !in u2 && ';' !in u2
    requires header == "<" + u1 + ">; rel=\"next\", <" + u2 + ">; rel=\"last\""
    ensures Describes(Split(header, ','), RelLinks(None, Some(u1), None, Some(u2)))
  {
    var e1 := "" + "<" + u1 + ">; rel=\"" + "next" + "\"";
    var e2 := " " + "<" + u2 + ">; rel=\"" + "last" + "\"";
    HeaderOfTwo(header, u1, u2, e1, e2);
    NextAndLastEntries(e1, e2, u1, u2);
    TwoEntriesDescribed(Split(header, ','), e1, e2, Link("next", u1), Link("last", u2));
  }

  lemma NextAndLastEntries(e1: string, e2: string, u1: string, u2: string)
    requires ';' !in u1 && ';' !in u2
    requires e1 == "" + "<" + u1 + ">; rel=\"" + "next" + "\""
    requires e2 == " " + "<" + u2 + ">; rel=\"" + "last" + "\""
    ensures ParseEntry(e1) == Some(Link("next", u1)) && ParseEntry(e2) == Some(Link("last", u2))
  {
    EntryParsed(e1, "", u1, "next");
    EntryParsed(e2, " ", u2, "last");
  }

  lemma HeaderOfTwo(header: string, u1: string, u2: string, e1: string, e2: string)
    requires ',' !in u1 && ',' !in u2
    requires e1 == "" + "<" + u1 + ">; rel=\"" + "next" + "\""
    requires e2 == " " + "<" + u2 + ">; rel=\"" + "last" + "\""
    requires header == "<" + u1 + ">; rel=\"next\", <" + u2 + ">; rel=\"last\""
    ensures Split(header, ',') == [e1, e2]
  {
    assert header == e1 + [','] + e2;
    assert ',' !in e1 && ',' !in e2;
    SplitInTwo(header, ',', e1, e2);
  }

  lemma TwoEntriesDescribed(entries: seq<string>, e1: string, e2: string, l1: Link, l2: Link)
    requires entries == [e1, e2] && ParseEntry(e1) == Some(l1) && ParseEntry(e2) == Some(l2)
    requires RelNamed(l1.rel) == Some(Next) && RelNamed(l2.rel) == Some(Last)
    ensures Describes(entries, RelLinks(None, Some(l1.uri), None, Some(l2.uri)))
  {
    ParsedTwo(entries, e1, e2);
    var parsed := ParsedEntries(entries);
    NextAndLastRecorded(parsed, l1, l2);
    var links := RelLinks(None, Some(l1.uri), None, Some(l2.uri));
    forall k
      ensures Lookup(links, k) == Recorded(parsed, k)
    {
      match k
      case First =>
      case Next =>
      case Prev =>
      case Last =>
    }
  }

  /** Two kept entries recording `next` and `last`: each is the last recorder of its relation. */
  lemma NextAndLastRecorded(parsed: seq<Option<Link>>, l1: Link, l2: Link)
    requires |parsed| == 2 && parsed[0] == Some(l1) && parsed[1] == Some(l2)
    requires RelNamed(l1.rel) == Some(Next) && RelNamed(l2.rel) == Some(Last)
    ensures Recorded(parsed, First) == None && Recorded(parsed, Prev) == None
    ensures Recorded(parsed, Next) == Some(l1.uri) && Recorded(parsed, Last) == Some(l2.uri)
  {
    assert !Records(parsed[1], Next);
    assert LastRecorder(parsed, Next) == Some(0);
    assert LastRecorder(parsed, Last) == Some(1);
  }

  /** Page `n` of the issue list the source's test header points to. */
  function IssuesPage(n: string): string
  {
    "https://api.github.com" + "/repositories/8514/issues" + "?page=" + n
  }

  lemma IssuesPagePlain(n: string)
    requires ',' !in n && ';' !in n
    ensures ',' !in IssuesPage(n) && ';' !in IssuesPage(n)
  {
    assert ',' !in "https://api.github.com" && ';' !in "https://api.github.com";
    assert ',' !in "/repositories/8514/issues" && ';' !in "/repositories/8514/issues";
    assert ',' !in "?page=" && ';' !in "?page=";
  }

  /** The header of the source's test yields exactly its `next` and `last` pages. */
  lemma GithubPagesExample(header: string, links: RelLinks)
    requires header == "<" + IssuesPage("2") + ">; rel=\"next\", <" + IssuesPage("30") + ">; rel=\"last\""
    requires Describes(Split(header, ','), links)
    ensures links == RelLinks(None, Some(IssuesPage("2")), None, Some(IssuesPage("30")))
  {
    var two, thirty := "2", "30";
    IssuesPagePlain(two);
    IssuesPagePlain(thirty);
    NextAndLast(header, IssuesPage(two), IssuesPage(thirty));
    DescribesUnique(Split(header, ','), links, RelLinks(None, Some(IssuesPage(two)), None, Some(IssuesPage(thirty))));
  }
}
