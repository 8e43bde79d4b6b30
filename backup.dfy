/** The inventory half of the backup script: the sanitised timestamp, the
    documents grouped by `_type`, one count per type and the counts sorted
    from the most to the least frequent type. */
module Backup {
  import opened Text
  import opened Json

  /** `timestamp.replace(/[:.]/g, '-')`. */
  function SanitizeTimestamp(ts: string): (r: string)
    ensures |r| == |ts|
    ensures forall i :: 0 <= i < |ts| ==> r[i] == if ts[i] == ':' || ts[i] == '.' then '-' else ts[i]
  {
    if ts == [] then []
    else [if ts[0] == ':' || ts[0] == '.' then '-' else ts[0]] + SanitizeTimestamp(ts[1..])
  }

  /** The result holds no ':' or '.', so it can name a directory, and
      sanitising it again changes nothing. */
  lemma SanitizeSafe(ts: string)
    ensures forall i :: 0 <= i < |ts| ==> SanitizeTimestamp(ts)[i] != ':' && SanitizeTimestamp(ts)[i] != '.'
    ensures SanitizeTimestamp(SanitizeTimestamp(ts)) == SanitizeTimestamp(ts)
  {
  }

  /** The property name `acc[doc._type]` uses: the type as text. */
  function TypeKey(doc: Doc): string {
    JsText(Get(doc, "_type"))
  }

  /** The documents of type `t`, in fetch order. */
  function OfType(docs: seq<Doc>, t: string): seq<Doc> {
    if docs == [] then []
    else
      var last := docs[|docs| - 1];
      OfType(docs[..|docs| - 1], t) + if TypeKey(last) == t then [last] else []
  }

  /** The types in the order they first occur, as `Object.entries` lists them. */
  function TypesInOrder(docs: seq<Doc>): seq<string> {
    if docs == [] then []
    else
      var ts := TypesInOrder(docs[..|docs| - 1]);
      var k := TypeKey(docs[|docs| - 1]);
      if k in ts then ts else ts + [k]
  }

  predicate Distinct(ts: seq<string>) {
    forall i, j :: 0 <= i < j < |ts| ==> ts[i] != ts[j]
  }

  /** A document is in group `t` exactly when it is one of the documents and
      its type is `t`. */
  lemma {:induction false} OfTypeMembers(docs: seq<Doc>, t: string, d: Doc)
    ensures d in OfType(docs, t) <==> d in docs && TypeKey(d) == t
  {
    if docs != [] {
      var init := docs[..|docs| - 1];
      OfTypeMembers(init, t, d);
      assert docs == init + [docs[|docs| - 1]];
    }
  }

  /** The types listed are distinct and are exactly those of some document. */
  lemma {:induction false} TypesInOrderSpec(docs: seq<Doc>)
    ensures Distinct(TypesInOrder(docs))
    ensures forall t :: t in TypesInOrder(docs) <==> OfType(docs, t) != []
  {
    if docs != [] {
      TypesInOrderSpec(docs[..|docs| - 1]);
    }
  }

  lemma GroupStep(docs: seq<Doc>, i: nat)
    requires i < |docs|
    ensures forall t :: (OfType(docs[..i + 1], t)
      == OfType(docs[..i], t) + if TypeKey(docs[i]) == t then [docs[i]] else [])
    ensures TypesInOrder(docs[..i + 1])
      == if TypeKey(docs[i]) in TypesInOrder(docs[..i]) then TypesInOrder(docs[..i])
         else TypesInOrder(docs[..i]) + [TypeKey(docs[i])]
  {
    assert docs[..i + 1][..i] == docs[..i];
  }

  /** The `reduce` over the documents: each document is pushed onto the
      group of its type, the group created (and its key listed) on first use. */
  method GroupByType(documents: seq<Doc>) returns (groups: map<string, seq<Doc>>, order: seq<string>)
    ensures forall t :: t in groups <==> OfType(documents, t) != []
    ensures forall t :: t in groups ==> groups[t] == OfType(documents, t)
    ensures order == TypesInOrder(documents)
  {
    groups, order := map[], [];
    for i := 0 to |documents|
      invariant forall t :: t in groups <==> OfType(documents[..i], t) != []
      invariant forall t :: t in groups ==> groups[t] == OfType(documents[..i], t)
      invariant order == TypesInOrder(documents[..i])
    {
      var doc := documents[i];
      var key := TypeKey(doc);
      GroupStep(documents, i);
      TypesInOrderSpec(documents[..i]);
      var group := if key in groups then groups[key] else [];
      assert group == OfType(documents[..i], key);
      if key !in groups {
        order := order + [key];
      }
      groups := groups[key := group + [doc]];
    }
    assert documents[..|documents|] == documents;
  }

  datatype DocumentCount = DocumentCount(typeName: string, count: nat)

  /** The loop over `Object.entries(documentsByType)` pushing one count per group. */
  method CountGroups(groups: map<string, seq<Doc>>, order: seq<string>) returns (counts: seq<DocumentCount>)
    requires forall t :: t in order ==> t in groups
    ensures |counts| == |order|
    ensures forall i :: 0 <= i < |order| ==> counts[i] == DocumentCount(order[i], |groups[order[i]]|)
  {
    counts := [];
    for i := 0 to |order|
      invariant |counts| == i
      invariant forall j :: 0 <= j < i ==> counts[j] == DocumentCount(order[j], |groups[order[j]]|)
    {
      var t := order[i];
      counts := counts + [DocumentCount(t, |groups[t]|)];
    }
  }

  /** The counts the loop produces for a list of documents. */
  function CountsOf(docs: seq<Doc>): (cs: seq<DocumentCount>)
    ensures |cs| == |TypesInOrder(docs)|
  {
    var ts := TypesInOrder(docs);
    seq(|ts|, i requires 0 <= i < |ts| => DocumentCount(ts[i], |OfType(docs, ts[i])|))
  }

  function SumCounts(cs: seq<DocumentCount>): nat {
    if cs == [] then 0 else SumCounts(cs[..|cs| - 1]) + cs[|cs| - 1].count
  }

  /** The number of times `k` occurs in `ts`. */
  function Occurrences(k: string, ts: seq<string>): nat {
    if ts == [] then 0 else Occurrences(k, ts[..|ts| - 1]) + if ts[|ts| - 1] == k then 1 else 0
  }

  /** The sizes of the groups named by `ts`. */
  function SumSizes(docs: seq<Doc>, ts: seq<string>): nat {
    if ts == [] then 0 else SumSizes(docs, ts[..|ts| - 1]) + |OfType(docs, ts[|ts| - 1])|
  }

  /** One more document adds one to each group of its type named in `ts`. */
  lemma {:induction false} SumSizesShift(docs: seq<Doc>, d: Doc, ts: seq<string>)
    ensures SumSizes(docs + [d], ts) == SumSizes(docs, ts) + Occurrences(TypeKey(d), ts)
  {
    assert (docs + [d])[..|docs|] == docs;
    if ts != [] {
      SumSizesShift(docs, d, ts[..|ts| - 1]);
    }
  }

  lemma {:induction false} OccurrencesDistinct(k: string, ts: seq<string>)
    requires Distinct(ts)
    ensures Occurrences(k, ts) == if k in ts then 1 else 0
  {
    if ts != [] {
      var init := ts[..|ts| - 1];
      assert Distinct(init);
      OccurrencesDistinct(k, init);
      assert ts == init + [ts[|ts| - 1]];
    }
  }

  /** The groups together hold every document once: their sizes sum to the
      number of documents. */
  lemma {:induction false} GroupSizesSum(docs: seq<Doc>)
    ensures SumSizes(docs, TypesInOrder(docs)) == |docs|
  {
    if docs != [] {
      var init, d := docs[..|docs| - 1], docs[|docs| - 1];
      var ts := TypesInOrder(init);
      var k := TypeKey(d);
      assert docs == init + [d];
      GroupSizesSum(init);
      TypesInOrderSpec(init);
      SumSizesShift(init, d, ts);
      OccurrencesDistinct(k, ts);
      if k !in ts {
        assert (ts + [k])[..|ts|] == ts;
        assert OfType(docs, k) == [d];
      }
    }
  }

  lemma {:induction false} SumCountsOfSizes(docs: seq<Doc>, ts: seq<string>)
    ensures SumCounts(seq(|ts|, i requires 0 <= i < |ts| => DocumentCount(ts[i], |OfType(docs, ts[i])|)))
      == SumSizes(docs, ts)
  {
    if ts != [] {
      var init := ts[..|ts| - 1];
      var cs := seq(|ts|, i requires 0 <= i < |ts| => DocumentCount(ts[i], |OfType(docs, ts[i])|));
      var cs' := seq(|init|, i requires 0 <= i < |init| => DocumentCount(init[i], |OfType(docs, init[i])|));
      assert cs[..|cs| - 1] == cs';
      SumCountsOfSizes(docs, init);
    }
  }

  /** The counts sum to the number of documents. */
  lemma CountsSum(docs: seq<Doc>)
    ensures SumCounts(CountsOf(docs)) == |docs|
  {
    GroupSizesSum(docs);
    SumCountsOfSizes(docs, TypesInOrder(docs));
  }

  /** Non-increasing by count, as `(a, b) => b.count - a.count` orders them. */
  predicate SortedByCount(cs: seq<DocumentCount>) {
    forall i, j :: 0 <= i < j < |cs| ==> cs[i].count >= cs[j].count
  }

  /** Inserts `c` before the first entry whose count is not larger, which
      keeps entries of equal count in their original order. */
  function Insert(c: DocumentCount, cs: seq<DocumentCount>): (r: seq<DocumentCount>)
    ensures multiset(r) == multiset(cs) + multiset{c}
    ensures |r| == |cs| + 1
  {
    if cs == [] || cs[0].count <= c.count then [c] + cs
    else
      var rest := Insert(c, cs[1..]);
      assert cs == [cs[0]] + cs[1..];
      [cs[0]] + rest
  }

  /** Inserting into a sorted list keeps it sorted. */
  lemma {:induction false} InsertSorted(c: DocumentCount, cs: seq<DocumentCount>)
    requires SortedByCount(cs)
    ensures SortedByCount(Insert(c, cs))
    ensures Insert(c, cs)[0] == c || (cs != [] && Insert(c, cs)[0] == cs[0])
  {
    if cs != [] && cs[0].count > c.count {
      InsertSorted(c, cs[1..]);
      var r := Insert(c, cs);
      assert r == [cs[0]] + Insert(c, cs[1..]);
      forall i, j | 0 <= i < j < |r| ensures r[i].count >= r[j].count {
        if i == 0 {
          assert r[j] in multiset(cs[1..]) + multiset{c} by {
            assert r[j] in Insert(c, cs[1..]);
          }
          if r[j] != c {
            var k :| 1 <= k < |cs| && cs[k] == r[j] by {
              assert r[j] in cs[1..];
            }
          }
        }
      }
    }
  }

  /** `counts.sort(...)`: a stable sort by descending count. */
  function SortByCount(cs: seq<DocumentCount>): (r: seq<DocumentCount>)
    ensures SortedByCount(r)
    ensures multiset(r) == multiset(cs)
  {
    if cs == [] then []
    else
      assert cs == [cs[0]] + cs[1..];
      InsertSorted(cs[0], SortByCount(cs[1..]));
      Insert(cs[0], SortByCount(cs[1..]))
  }

  lemma {:induction false} SumCountsPrepend(c: DocumentCount, cs: seq<DocumentCount>)
    ensures SumCounts([c] + cs) == c.count + SumCounts(cs)
  {
    if cs != [] {
      SumCountsPrepend(c, cs[..|cs| - 1]);
      assert ([c] + cs)[..|cs|] == [c] + cs[..|cs| - 1];
    }
  }

  lemma {:induction false} SumCountsInsert(c: DocumentCount, cs: seq<DocumentCount>)
    ensures SumCounts(Insert(c, cs)) == c.count + SumCounts(cs)
  {
    if cs == [] || cs[0].count <= c.count {
      SumCountsPrepend(c, cs);
    } else {
      SumCountsInsert(c, cs[1..]);
      SumCountsPrepend(cs[0], Insert(c, cs[1..]));
      SumCountsPrepend(cs[0], cs[1..]);
      assert cs == [cs[0]] + cs[1..];
    }
  }

  /** Sorting keeps the total. */
  lemma {:induction false} SortKeepsSum(cs: seq<DocumentCount>)
    ensures SumCounts(SortByCount(cs)) == SumCounts(cs)
  {
    if cs != [] {
      SortKeepsSum(cs[1..]);
      SumCountsInsert(cs[0], SortByCount(cs[1..]));
      SumCountsPrepend(cs[0], cs[1..]);
      assert cs == [cs[0]] + cs[1..];
    }
  }

  datatype BackupReport = BackupReport(
    timestamp: string, totalDocuments: nat, documentsByType: seq<DocumentCount>, backupPath: string)

  /** The inventory of one backup run. `isoNow` is `new Date().toISOString()`
      and `backupDir` the directory the script builds from it. */
  method Inventory(isoNow: string, documents: seq<Doc>, backupDir: string) returns (report: BackupReport)
    ensures report.timestamp == SanitizeTimestamp(isoNow) && report.backupPath == backupDir
    ensures report.totalDocuments == |documents|
    ensures SortedByCount(report.documentsByType)
    ensures multiset(report.documentsByType) == multiset(CountsOf(documents))
    ensures SumCounts(report.documentsByType) == report.totalDocuments
  {
    var timestamp := SanitizeTimestamp(isoNow);
    var groups, order := GroupByType(documents);
    TypesInOrderSpec(documents);
    var counts := CountGroups(groups, order);
    assert counts == CountsOf(documents);
    CountsSum(documents);
    SortKeepsSum(counts);
    report := BackupReport(timestamp, |documents|, SortByCount(counts), backupDir);
  }

  /** Each entry of the report names a type that occurs, with that type's
      number of documents, and every type that occurs has exactly one entry. */
  lemma ReportEntries(documents: seq<Doc>, cs: seq<DocumentCount>, t: string)
    requires multiset(cs) == multiset(CountsOf(documents))
    ensures forall e :: e in cs ==> OfType(documents, e.typeName) != [] && e.count == |OfType(documents, e.typeName)|
    ensures OfType(documents, t) != [] ==> multiset(cs)[DocumentCount(t, |OfType(documents, t)|)] == 1
    ensures forall n :: n != |OfType(documents, t)| ==> DocumentCount(t, n) !in cs
  {
    var ts := TypesInOrder(documents);
    TypesInOrderSpec(documents);
    var all := CountsOf(documents);
    forall e | e in cs ensures OfType(documents, e.typeName) != [] && e.count == |OfType(documents, e.typeName)| {
      assert e in multiset(all);
    }
    if OfType(documents, t) != [] {
      var i :| 0 <= i < |ts| && ts[i] == t;
      DistinctMultiplicity(all, i);
    }
  }

  /** An entry whose type occurs once in the list occurs once in its multiset. */
  lemma {:induction false} DistinctMultiplicity(cs: seq<DocumentCount>, i: nat)
    requires i < |cs|
    requires forall j :: 0 <= j < |cs| && j != i ==> cs[j].typeName != cs[i].typeName
    ensures multiset(cs)[cs[i]] == 1
  {
    var c := cs[i];
    assert cs == cs[..i] + [c] + cs[i + 1..];
    assert c !in cs[..i] by {
      forall j | 0 <= j < i ensures cs[..i][j] != c { assert cs[..i][j] == cs[j]; }
    }
    var tail := cs[i + 1..];
    assert c !in tail by {
      forall j | 0 <= j < |tail| ensures tail[j] != c { assert tail[j] == cs[i + 1 + j]; }
    }
  }
}
