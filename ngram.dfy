/**
  The add-on's run: `NGram.main` and its helper `process_doc`. The two terms are read
  from the request data and lower-cased; the documents come from the explicit id list
  when it is non-empty, otherwise from the search query when that is non-empty,
  otherwise there are none; each document appends one entry to each of four parallel
  lists, which are then turned into the date-sorted table.
*/
module NGramAddOn {
  import opened TermCount
  import opened Series

  type DocId = nat

  /** A document as the retrieval service returns it. */
  datatype Document = Document(createdAt: Timestamp, title: string, fullText: string)

  /** `str.lower()` on one character, restricted to ASCII. */
  function LowerChar(c: char): char {
    if 'A' <= c <= 'Z' then (c as int - 'A' as int + 'a' as int) as char else c
  }

  /** `str.upper()` on one character, restricted to ASCII. */
  function UpperChar(c: char): char {
    if 'a' <= c <= 'z' then (c as int - 'a' as int + 'A' as int) as char else c
  }

  function Lower(s: string): (r: string)
    ensures |r| == |s| && forall i :: 0 <= i < |s| ==> r[i] == LowerChar(s[i])
  {
    if s == [] then [] else [LowerChar(s[0])] + Lower(s[1..])
  }

  function Upper(s: string): (r: string)
    ensures |r| == |s| && forall i :: 0 <= i < |s| ==> r[i] == UpperChar(s[i])
  {
    if s == [] then [] else [UpperChar(s[0])] + Upper(s[1..])
  }

  /** Lower-casing forgets an earlier upper-casing. */
  lemma LowerOfUpper(s: string)
    ensures Lower(Upper(s)) == Lower(s)
  {
    forall i | 0 <= i < |s| ensures Lower(Upper(s))[i] == Lower(s)[i] {
      var c := s[i];
      assert Lower(Upper(s))[i] == LowerChar(UpperChar(c));
    }
  }

  /** The count `process_doc` records for a term already lower-cased by `main`. */
  function RecordedCount(term: string, doc: Document): nat {
    GetStrCount(term, Lower(doc.fullText))
  }

  /**
    Counting is case-insensitive in effect: because `main` lower-cases the term and
    `process_doc` lower-cases the text, terms that differ only in case give the same
    count, and so do texts that differ only in case.
  */
  lemma CountIgnoresCase(term: string, doc: Document)
    ensures forall other: string :: Lower(other) == Lower(term) ==>
      RecordedCount(Lower(other), doc) == RecordedCount(Lower(term), doc)
    ensures RecordedCount(Lower(Upper(term)), doc) == RecordedCount(Lower(term), doc)
    ensures var shouted := Document(doc.createdAt, doc.title, Upper(doc.fullText));
      RecordedCount(Lower(term), shouted) == RecordedCount(Lower(term), doc)
  {
    LowerOfUpper(term);
    LowerOfUpper(doc.fullText);
  }

  /** `self.data.get(key, "")`. */
  function DataGet(data: map<string, string>, key: string): string {
    if key in data then data[key] else ""
  }

  /** Where the documents of a run come from. */
  datatype Source = ByIds(ids: seq<DocId>) | ByQuery(query: string) | NoSource

  /** The id list, when non-empty, wins over the query; with neither there is no source. */
  function SelectSource(documents: seq<DocId>, query: string): Source {
    if |documents| > 0 then ByIds(documents)
    else if |query| > 0 then ByQuery(query)
    else NoSource
  }

  /**
    The documents a run processes, given what `documents.list` returned for the ids
    (`listed`) and what `documents.search` returned for the query (`searched`).
  */
  function Retrieve(src: Source, listed: seq<Document>, searched: seq<Document>): seq<Document> {
    match src
    case ByIds(_) => listed
    case ByQuery(_) => searched
    case NoSource => []
  }

  /** Source selection: ids take precedence over a query; with neither, nothing is processed. */
  lemma SourcePrecedence(documents: seq<DocId>, query: string, listed: seq<Document>, searched: seq<Document>)
    ensures |documents| > 0 ==> Retrieve(SelectSource(documents, query), listed, searched) == listed
    ensures |documents| == 0 && |query| > 0 ==>
      Retrieve(SelectSource(documents, query), listed, searched) == searched
    ensures |documents| == 0 && |query| == 0 ==>
      Retrieve(SelectSource(documents, query), listed, searched) == []
  {
  }

  /** The row that the table holds for one document. */
  function RecordOf(term1: string, term2: string, doc: Document): Row {
    Row(doc.title, RecordedCount(term1, doc), RecordedCount(term2, doc), DateOf(doc.createdAt))
  }

  /** The rows of the documents, in document order. */
  function RecordsOf(term1: string, term2: string, docs: seq<Document>): (rows: seq<Row>)
    ensures |rows| == |docs| && forall k :: 0 <= k < |docs| ==> rows[k] == RecordOf(term1, term2, docs[k])
  {
    seq(|docs|, k requires 0 <= k < |docs| => RecordOf(term1, term2, docs[k]))
  }

  /** Lists whose entry k describes document k of docs, as `process_doc` fills them. */
  ghost predicate ListsDescribe(docs: seq<Document>, term1: string, term2: string,
                                dates: seq<Timestamp>, c1: seq<nat>, c2: seq<nat>, names: seq<string>)
  {
    && |dates| == |docs| && |c1| == |docs| && |c2| == |docs| && |names| == |docs|
    && forall k :: 0 <= k < |docs| ==>
         && dates[k] == docs[k].createdAt
         && c1[k] == RecordedCount(term1, docs[k])
         && c2[k] == RecordedCount(term2, docs[k])
         && names[k] == docs[k].title
  }

  /** Zipping lists that describe the documents gives each document's row, in order. */
  lemma ZipOfDescribedLists(docs: seq<Document>, term1: string, term2: string,
                            dates: seq<Timestamp>, c1: seq<nat>, c2: seq<nat>, names: seq<string>)
    requires ListsDescribe(docs, term1, term2, dates, c1, c2, names)
    ensures var rows := Zip(dates, c1, c2, names);
      |rows| == |docs| && forall k :: 0 <= k < |docs| ==> rows[k] == RecordOf(term1, term2, docs[k])
  {
  }

  /** Built from lists that describe the documents, the table holds exactly their rows. */
  lemma TableHoldsRecords(docs: seq<Document>, term1: string, term2: string,
                          dates: seq<Timestamp>, c1: seq<nat>, c2: seq<nat>, names: seq<string>)
    requires ListsDescribe(docs, term1, term2, dates, c1, c2, names)
    ensures multiset(MakeDf(dates, c1, c2, names)) == multiset(RecordsOf(term1, term2, docs))
  {
    ZipOfDescribedLists(docs, term1, term2, dates, c1, c2, names);
    assert Zip(dates, c1, c2, names) == RecordsOf(term1, term2, docs);
  }

  /**
    The table a run produces has one row per processed document, is sorted ascending
    by date, and holds exactly the documents' rows.
  */
  lemma TableOfDocuments(docs: seq<Document>, term1: string, term2: string,
                         dates: seq<Timestamp>, c1: seq<nat>, c2: seq<nat>, names: seq<string>)
    requires ListsDescribe(docs, term1, term2, dates, c1, c2, names)
    ensures var df := MakeDf(dates, c1, c2, names);
      && |df| == |docs|
      && SortedByDate(df)
      && (forall r :: r in df ==> exists k :: 0 <= k < |docs| && r == RecordOf(term1, term2, docs[k]))
      && (forall k :: 0 <= k < |docs| ==> RecordOf(term1, term2, docs[k]) in df)
      && multiset(df) == multiset(RecordsOf(term1, term2, docs))
  {
    var df := MakeDf(dates, c1, c2, names);
    var recs := RecordsOf(term1, term2, docs);
    TableHoldsRecords(docs, term1, term2, dates, c1, c2, names);
    forall r | r in df ensures exists k :: 0 <= k < |docs| && r == RecordOf(term1, term2, docs[k]) {
      assert r in multiset(recs);
      var k :| 0 <= k < |recs| && recs[k] == r;
    }
    forall k | 0 <= k < |docs| ensures RecordOf(term1, term2, docs[k]) in df {
      assert recs[k] in multiset(df);
    }
  }

  /** The add-on object: the two lower-cased terms and the four per-document lists. */
  class NGram {
    var string1: string
    var string2: string
    var documentDates: seq<Timestamp>
    var string1Counts: seq<nat>
    var string2Counts: seq<nat>
    var docNames: seq<string>

    /** Entry k of each of the four lists describes document k of docs. */
    ghost predicate Describes(docs: seq<Document>)
      reads this
    {
      ListsDescribe(docs, string1, string2, documentDates, string1Counts, string2Counts, docNames)
    }

    constructor ()
      ensures string1 == "" && string2 == ""
      ensures Describes([])
    {
      string1, string2 := "", "";
      documentDates, string1Counts, string2Counts, docNames := [], [], [], [];
    }

    /** `process_doc`: append one entry for the document to each of the four lists. */
    method ProcessDoc(document: Document)
      modifies this
      ensures string1 == old(string1) && string2 == old(string2)
      ensures documentDates == old(documentDates) + [document.createdAt]
      ensures string1Counts == old(string1Counts) + [RecordedCount(string1, document)]
      ensures string2Counts == old(string2Counts) + [RecordedCount(string2, document)]
      ensures docNames == old(docNames) + [document.title]
    {
      documentDates := documentDates + [document.createdAt];
      var docText := document.fullText;
      docText := Lower(docText);
      string1Counts := string1Counts + [GetStrCount(string1, docText)];
      string2Counts := string2Counts + [GetStrCount(string2, docText)];
      docNames := docNames + [document.title];
    }

    /** `for document in ...: process_doc(document)`, from empty lists. */
    method ProcessAll(docs: seq<Document>)
      requires Describes([])
      modifies this
      ensures string1 == old(string1) && string2 == old(string2)
      ensures Describes(docs)
    {
      for i := 0 to |docs|
        invariant string1 == old(string1) && string2 == old(string2)
        invariant Describes(docs[..i])
      {
        ProcessDoc(docs[i]);
        assert docs[..i + 1] == docs[..i] + [docs[i]];
      }
      assert docs[..|docs|] == docs;
    }

    /**
      `main`, up to building the table: terms read and lower-cased, the selected
      documents processed in order, the table built from the four lists.
    */
    method Run(data: map<string, string>, documents: seq<DocId>, query: string,
                listed: seq<Document>, searched: seq<Document>) returns (df: seq<Row>)
      modifies this
      ensures string1 == Lower(DataGet(data, "string1"))
      ensures string2 == Lower(DataGet(data, "string2"))
      ensures Describes(Retrieve(SelectSource(documents, query), listed, searched))
      ensures df == MakeDf(documentDates, string1Counts, string2Counts, docNames)
      ensures var docs := Retrieve(SelectSource(documents, query), listed, searched);
        && |df| == |docs|
        && SortedByDate(df)
        && (forall k :: 0 <= k < |docs| ==> RecordOf(string1, string2, docs[k]) in df)
        && (forall r :: r in df ==> exists k :: 0 <= k < |docs| && r == RecordOf(string1, string2, docs[k]))
        && multiset(df) == multiset(RecordsOf(string1, string2, docs))
    {
      var s1 := DataGet(data, "string1");
      var s2 := DataGet(data, "string2");
      string1 := Lower(s1);
      string2 := Lower(s2);
      documentDates, string1Counts, string2Counts, docNames := [], [], [], [];
      if |documents| > 0 {
        ProcessAll(listed);
      } else if |query| > 0 {
        ProcessAll(searched);
      }
      df := MakeDf(documentDates, string1Counts, string2Counts, docNames);
      TableOfDocuments(Retrieve(SelectSource(documents, query), listed, searched), string1, string2,
                       documentDates, string1Counts, string2Counts, docNames);
    }
  }
}
