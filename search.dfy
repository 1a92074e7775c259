/** The client-side search of the list pages: a case-insensitive substring
    match of the search text against every attribute of a record, or against
    one named attribute. Three variants occur:
    - the `handleSearch` of SharedContent, YukAngkutContent and Dashboard,
      which returns the list unchanged for empty text and does not trim;
    - the `performSearch` of the blog page, which trims and has no
      empty-text shortcut;
    - the `filteredData` derived on every render by KuyPoint and Users, which
      always searches every attribute. */
module Search {
  import opened Wrappers
  import opened Seqs
  import opened Text
  import opened Collection

  /** The search-field value that means "every attribute". */
  const AllFields := "all"

  /** Some attribute value of `e`, lower-cased, contains `term`
      (`Object.values(item).some(value => ...includes(term))`). */
  predicate MatchesAny(e: Entity, term: string) {
    exists k :: k in e && Contains(Lower(e[k]), term)
  }

  /** Whether the search keeps `e`: with `field` "all" any attribute may
      match, otherwise only attribute `field` is tested. */
  predicate Keeps(e: Entity, field: string, term: string) {
    if field == AllFields then MatchesAny(e, term)
    else field in e && Contains(Lower(e[field]), term)
  }

  /** A single-field search reads `item[field].toString()` of every record,
      which throws for a record without that attribute; an all-field search
      never throws. */
  predicate CanSearch(data: seq<Entity>, field: string) {
    field == AllFields || forall e :: e in data ==> field in e
  }

  /** The records `Keeps` accepts, in order. */
  function Matching(data: seq<Entity>, field: string, term: string): (r: seq<Entity>)
    ensures forall e :: e in r <==> e in data && Keeps(e, field, term)
    ensures IsSubsequence(r, data)
    ensures forall e :: multiset(r)[e] == if Keeps(e, field, term) then multiset(data)[e] else 0
  {
    FilterIsSubsequence(data, e => Keeps(e, field, term));
    FilterCounts(data, e => Keeps(e, field, term));
    Filter(data, e => Keeps(e, field, term))
  }

  /** The `handleSearch` of SharedContent, YukAngkutContent and Dashboard.
      `None` stands for the exception a single-field search throws on a
      record without that field, after which the page keeps its old list. */
  function HandleSearch(data: seq<Entity>, text: string, field: string): (r: Option<seq<Entity>>)
    ensures text == "" ==> r == Some(data)
    ensures text != "" ==> (r.Some? <==> CanSearch(data, field))
    ensures r.Some? ==> IsSubsequence(r.value, data)
    ensures r.Some? && text != "" ==>
      forall e :: e in r.value <==> e in data && Keeps(e, field, Lower(text))
    ensures r.Some? && text != "" ==>
      forall e :: multiset(r.value)[e] == if Keeps(e, field, Lower(text)) then multiset(data)[e] else 0
  {
    SubsequenceReflexive(data);
    if text == "" then Some(data)
    else if CanSearch(data, field) then Some(Matching(data, field, Lower(text)))
    else None
  }

  /** The blog page's `performSearch`: the text is lower-cased and trimmed,
      and there is no shortcut for empty text. */
  function PerformSearch(data: seq<Entity>, text: string, field: string): (r: Option<seq<Entity>>)
    ensures r.Some? <==> CanSearch(data, field)
    ensures r.Some? ==> IsSubsequence(r.value, data)
    ensures r.Some? ==> forall e :: e in r.value <==> e in data && Keeps(e, field, Trim(Lower(text)))
    ensures r.Some? ==>
      forall e :: multiset(r.value)[e] == if Keeps(e, field, Trim(Lower(text))) then multiset(data)[e] else 0
  {
    if CanSearch(data, field) then Some(Matching(data, field, Trim(Lower(text)))) else None
  }

  /** The `filteredData` KuyPoint and Users derive from `data` and the
      navbar's `searchQuery` on every render: an all-field, untrimmed match
      with no empty-text shortcut. */
  function FilterAnyField(data: seq<Entity>, query: string): (r: seq<Entity>)
    ensures forall e :: e in r <==> e in data && MatchesAny(e, Lower(query))
    ensures IsSubsequence(r, data)
    ensures forall e :: multiset(r)[e] == if MatchesAny(e, Lower(query)) then multiset(data)[e] else 0
  {
    Matching(data, AllFields, Lower(query))
  }

  lemma MatchingKeepsAll(data: seq<Entity>, field: string, term: string)
    requires forall e :: e in data ==> Keeps(e, field, term)
    ensures Matching(data, field, term) == data
  {
    FilterKeepsAll(data, e => Keeps(e, field, term));
  }

  /** A single-field search that can read every record of a list can read
      every record of a sub-list. */
  lemma CanSearchSubsequence(a: seq<Entity>, b: seq<Entity>, field: string)
    requires IsSubsequence(a, b) && CanSearch(b, field)
    ensures CanSearch(a, field)
  {
    forall e | e in a ensures field == AllFields || field in e {
      SubsequenceElements(a, b, e);
    }
  }

  /** Searching the result of a search again, with the same text and field,
      changes nothing. */
  lemma HandleSearchIdempotent(data: seq<Entity>, text: string, field: string)
    requires HandleSearch(data, text, field).Some?
    ensures HandleSearch(HandleSearch(data, text, field).value, text, field)
         == HandleSearch(data, text, field)
  {
    var r := HandleSearch(data, text, field).value;
    if text != "" {
      CanSearchSubsequence(r, data, field);
      MatchingKeepsAll(r, field, Lower(text));
    }
  }

  /** The same for the blog page's search. */
  lemma PerformSearchIdempotent(data: seq<Entity>, text: string, field: string)
    requires PerformSearch(data, text, field).Some?
    ensures PerformSearch(PerformSearch(data, text, field).value, text, field)
         == PerformSearch(data, text, field)
  {
    var r := PerformSearch(data, text, field).value;
    CanSearchSubsequence(r, data, field);
    MatchingKeepsAll(r, field, Trim(Lower(text)));
  }

  /** Every string contains the empty string, so with an empty query the
      derived filter of KuyPoint and Users keeps exactly the records that
      have at least one attribute, in order. */
  lemma EmptyQueryKeepsNonEmptyRecords(data: seq<Entity>)
    ensures FilterAnyField(data, "") == Filter(data, (e: Entity) => |e| > 0)
  {
    forall e: Entity | e in data ensures Keeps(e, AllFields, Lower("")) == (|e| > 0) {
      if |e| > 0 {
        var k :| k in e;
        assert Contains(Lower(e[k]), "");
      }
    }
    FilterCongruent(data, e => Keeps(e, AllFields, Lower("")), (e: Entity) => |e| > 0);
  }

  /** Upper and lower case in the text make no difference to the search. */
  lemma HandleSearchIgnoresCase(data: seq<Entity>, text: string, text': string, field: string)
    requires Lower(text) == Lower(text')
    ensures HandleSearch(data, text, field) == HandleSearch(data, text', field)
  {
    if text == "" || text' == "" {
      assert |text| == |Lower(text)| == |text'|;
    }
  }

  /** The blog page ignores white space around the text; the other pages do
      not trim: a record named "Agus" is found by " agus" on the blog page
      and missed by the shared search. */
  lemma OnlyBlogSearchTrims()
    ensures var agus := map["name" := "Agus"];
      && PerformSearch([agus], " agus", AllFields) == Some([agus])
      && HandleSearch([agus], " agus", AllFields) == Some([])
  {
    var agus := map["name" := "Agus"];
    AgusMatches();
    TrimLeadingSpace();
    assert Lower(" agus") == " agus";
    assert Keeps(agus, AllFields, "agus") by {
      assert "name" in agus && Lower(agus["name"]) == "agus";
    }
    MatchingKeepsAll([agus], AllFields, "agus");
    assert !Keeps(agus, AllFields, " agus") by {
      NotContainsShort("agus", " agus");
      assert agus.Keys == {"name"};
    }
    FilterKeepsNone([agus], e => Keeps(e, AllFields, " agus"));
  }

  /** Empty text returns the list unchanged in the shared search, but the
      blog search, which has no shortcut, drops a record with no attribute. */
  lemma OnlySharedSearchHasShortcut()
    ensures HandleSearch([map[]], "", AllFields) == Some([map[]])
    ensures PerformSearch([map[]], "", AllFields) == Some([])
  {
    var empty: Entity := map[];
    assert !Keeps(empty, AllFields, Trim(Lower("")));
    FilterKeepsNone([empty], e => Keeps(e, AllFields, Trim(Lower(""))));
  }

  /** The example of a search over two records: "agus" over every field
      finds the first record only. */
  lemma SearchTwoRecords()
    ensures var a := map["id" := "A", "name" := "Agus", "status" := "Berhasil"];
            var b := map["id" := "B", "name" := "Budi", "status" := "Proses"];
            HandleSearch([a, b], "agus", AllFields) == Some([a])
  {
    var a := map["id" := "A", "name" := "Agus", "status" := "Berhasil"];
    var b := map["id" := "B", "name" := "Budi", "status" := "Proses"];
    AgusFindsFirst(a, b);
    SearchIsMatching([a, b], "agus", AllFields);
    assert Lower("agus") == "agus";
  }

  /** The all-field rule accepts the first example record and not the
      second. */
  lemma AgusFindsFirst(a: Entity, b: Entity)
    requires a == map["id" := "A", "name" := "Agus", "status" := "Berhasil"]
    requires b == map["id" := "B", "name" := "Budi", "status" := "Proses"]
    ensures Matching([a, b], AllFields, "agus") == [a]
  {
    AgusKept(a);
    BudiDropped(b);
    MatchingFirstOfTwo(a, b, AllFields, "agus");
  }

  lemma AgusKept(a: Entity)
    requires a == map["id" := "A", "name" := "Agus", "status" := "Berhasil"]
    ensures Keeps(a, AllFields, "agus")
  {
    AgusMatches();
    assert "name" in a && Lower(a["name"]) == "agus";
  }

  lemma BudiDropped(b: Entity)
    requires b == map["id" := "B", "name" := "Budi", "status" := "Proses"]
    ensures !Keeps(b, AllFields, "agus")
  {
    assert b.Keys == {"id", "name", "status"};
    BudiMisses();
  }

  /** For non-empty text that every record can be searched with, the
      shared search is the filter. */
  lemma SearchIsMatching(data: seq<Entity>, text: string, field: string)
    requires text != "" && CanSearch(data, field)
    ensures HandleSearch(data, text, field) == Some(Matching(data, field, Lower(text)))
  {
  }

  lemma MatchingFirstOfTwo(a: Entity, b: Entity, field: string, term: string)
    requires Keeps(a, field, term) && !Keeps(b, field, term)
    ensures Matching([a, b], field, term) == [a]
  {
    var p := e => Keeps(e, field, term);
    assert [a, b][1..] == [b];
    assert [b][1..] == [];
    assert Filter([b], p) == [];
    assert Filter([a, b], p) == [a] + Filter([b], p);
  }

  /** No attribute of the second record contains "agus". */
  lemma BudiMisses()
    ensures !Contains(Lower("B"), "agus")
    ensures !Contains(Lower("Budi"), "agus")
    ensures !Contains(Lower("Proses"), "agus")
  {
    NotContainsShort(Lower("B"), "agus");
    NotContainsAgus(Lower("Budi"));
    NotContainsAgus(Lower("Proses"));
  }

  lemma TrimLeadingSpace()
    ensures Trim(" agus") == "agus"
  {
    assert IsJsWhitespace(' ');
    assert " agus"[1..] == "agus";
    assert !IsJsWhitespace('a');
    assert TrimStart("agus") == "agus";
    assert !IsJsWhitespace('s');
  }

  /** Lower-casing "Agus" gives "agus", which contains "agus". */
  lemma AgusMatches()
    ensures Lower("Agus") == "agus"
    ensures Contains(Lower("Agus"), "agus")
  {
    assert Lower("Agus")[0] == 'a';
  }

  lemma NotContainsShort(s: string, sub: string)
    requires |s| < |sub|
    ensures !Contains(s, sub)
    decreases |s|
  {
    if |s| > 0 {
      NotContainsShort(s[1..], sub);
    }
  }

  /** A string without the letter 'g' does not contain "agus". */
  lemma {:induction false} NotContainsAgus(s: string)
    requires forall i :: 0 <= i < |s| ==> s[i] != 'g'
    ensures !Contains(s, "agus")
    decreases |s|
  {
    if |s| > 0 {
      if |s| >= 4 {
        assert s[1] != "agus"[1];
      }
      NotContainsAgus(s[1..]);
    }
  }
}
