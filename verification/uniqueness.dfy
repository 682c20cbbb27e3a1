/** The raw-FIR test that no source element is shared by two different FIR
    elements: a walk over the FIR tree records every element under its
    source (PSI) element together with its parent, then reports the source
    elements recorded for more than one distinct FIR element. */
module SourceElementUniqueness {
  import opened Wrappers

  /** A source (PSI) element, by identity. */
  type Psi = nat

  /** A FIR element: its identity, its real source element if any, and its
      children in `acceptChildren` order. */
  datatype FirNode = FirNode(id: nat, psi: Option<Psi>, children: seq<FirNode>)

  /** One recorded visit: the element and the parent it was visited
      under. */
  type Entry = (FirNode, Option<FirNode>)

  type Mappings = map<Psi, seq<Entry>>

  // ---------------------------------------------------------------------
  // The walk.

  function Lookup(m: Mappings, p: Psi): seq<Entry> {
    if p in m then m[p] else []
  }

  /** `getOrPut(psi) { mutableListOf() }.add(element to parent)`, for an
      element with a source element. */
  function Record(m: Mappings, e: Entry): Mappings {
    match e.0.psi
    case None => m
    case Some(p) => m[p := Lookup(m, p) + [e]]
  }

  /** `visitElement`: record the element, then visit its children with the
      element as their parent. */
  function Visit(n: FirNode, parent: Option<FirNode>, m: Mappings): Mappings
    decreases n, 1
  {
    VisitChildren(n.children, Some(n), Record(m, (n, parent)))
  }

  function VisitChildren(cs: seq<FirNode>, parent: Option<FirNode>, m: Mappings): Mappings
    decreases cs, 0
  {
    if |cs| == 0 then m else VisitChildren(cs[1..], parent, Visit(cs[0], parent, m))
  }

  // ---------------------------------------------------------------------
  // The reference: every element in document order with its parent.

  /** Each element of the tree, before its children, paired with its
      parent. */
  function Preorder(n: FirNode, parent: Option<FirNode>): (r: seq<Entry>)
    ensures |r| > 0 && r[0] == (n, parent)
    decreases n, 1
  {
    [(n, parent)] + PreorderAll(n.children, Some(n))
  }

  function PreorderAll(cs: seq<FirNode>, parent: Option<FirNode>): seq<Entry>
    decreases cs, 0
  {
    if |cs| == 0 then [] else Preorder(cs[0], parent) + PreorderAll(cs[1..], parent)
  }

  /** Recording a list of entries in order. */
  function RecordAll(m: Mappings, entries: seq<Entry>): Mappings
    decreases |entries|
  {
    if |entries| == 0 then m else RecordAll(Record(m, entries[0]), entries[1..])
  }

  lemma {:induction false} RecordAllAppend(m: Mappings, a: seq<Entry>, b: seq<Entry>)
    ensures RecordAll(m, a + b) == RecordAll(RecordAll(m, a), b)
    decreases |a|
  {
    if |a| == 0 {
      assert a + b == b;
    } else {
      assert (a + b)[0] == a[0];
      assert (a + b)[1..] == a[1..] + b;
      RecordAllAppend(Record(m, a[0]), a[1..], b);
    }
  }

  /** The walk records exactly the preorder of the tree: every element
      with a source element, under that source element, paired with the
      parent it was visited under. */
  lemma {:induction false} VisitRecordsPreorder(n: FirNode, parent: Option<FirNode>, m: Mappings)
    ensures Visit(n, parent, m) == RecordAll(m, Preorder(n, parent))
    decreases n, 1
  {
    VisitChildrenRecordPreorder(n.children, Some(n), Record(m, (n, parent)));
    var rest := PreorderAll(n.children, Some(n));
    assert ([(n, parent)] + rest)[0] == (n, parent);
    assert ([(n, parent)] + rest)[1..] == rest;
  }

  lemma {:induction false} VisitChildrenRecordPreorder(cs: seq<FirNode>, parent: Option<FirNode>, m: Mappings)
    ensures VisitChildren(cs, parent, m) == RecordAll(m, PreorderAll(cs, parent))
    decreases cs, 0
  {
    if |cs| > 0 {
      VisitRecordsPreorder(cs[0], parent, m);
      VisitChildrenRecordPreorder(cs[1..], parent, Visit(cs[0], parent, m));
      RecordAllAppend(m, Preorder(cs[0], parent), PreorderAll(cs[1..], parent));
    }
  }

  /** The entries whose element has source element `p`, in order. */
  function WithPsi(entries: seq<Entry>, p: Psi): seq<Entry> {
    if |entries| == 0 then []
    else (if entries[0].0.psi == Some(p) then [entries[0]] else []) + WithPsi(entries[1..], p)
  }

  /** `WithPsi` keeps exactly the entries naming `p`. */
  lemma {:induction false} WithPsiSelects(entries: seq<Entry>, p: Psi)
    ensures forall x :: x in WithPsi(entries, p) <==> x in entries && x.0.psi == Some(p)
  {
    if |entries| > 0 {
      WithPsiSelects(entries[1..], p);
      assert entries == [entries[0]] + entries[1..];
    }
  }

  /** After recording, each source element holds what it held before
      followed by the new entries that name it. */
  lemma {:induction false} RecordAllLookup(m: Mappings, entries: seq<Entry>, p: Psi)
    ensures Lookup(RecordAll(m, entries), p) == Lookup(m, p) + WithPsi(entries, p)
    decreases |entries|
  {
    if |entries| > 0 {
      var e := entries[0];
      var head := if e.0.psi == Some(p) then [e] else [];
      RecordLookup(m, e, p);
      RecordAllLookup(Record(m, e), entries[1..], p);
      assert WithPsi(entries, p) == head + WithPsi(entries[1..], p);
      assert Lookup(m, p) + head + WithPsi(entries[1..], p) == Lookup(m, p) + (head + WithPsi(entries[1..], p));
    }
  }

  /** A source element is a key after recording exactly when it was one
      before or a new entry names it. */
  lemma {:induction false} RecordAllKeys(m: Mappings, entries: seq<Entry>, p: Psi)
    ensures p in RecordAll(m, entries) <==> p in m || |WithPsi(entries, p)| > 0
    decreases |entries|
  {
    if |entries| > 0 {
      var e := entries[0];
      RecordLookup(m, e, p);
      RecordAllKeys(Record(m, e), entries[1..], p);
      assert |WithPsi(entries, p)| == (if e.0.psi == Some(p) then 1 else 0) + |WithPsi(entries[1..], p)|;
    }
  }

  lemma RecordLookup(m: Mappings, e: Entry, p: Psi)
    ensures Lookup(Record(m, e), p) == Lookup(m, p) + (if e.0.psi == Some(p) then [e] else [])
    ensures p in Record(m, e) <==> p in m || e.0.psi == Some(p)
  {
  }

  // ---------------------------------------------------------------------
  // Error mappings.

  /** `distinctBy { it.first }` with the ids in `seen` already taken: the
      first entry of each element not yet seen. */
  function DistinctFrom(entries: seq<Entry>, seen: set<nat>): (r: seq<Entry>)
    ensures |r| <= |entries|
  {
    if |entries| == 0 then []
    else if entries[0].0.id in seen then DistinctFrom(entries[1..], seen)
    else [entries[0]] + DistinctFrom(entries[1..], seen + {entries[0].0.id})
  }

  /** What is kept comes from the entries, is of an element not yet seen,
      and no element is kept twice. */
  lemma {:induction false} DistinctSound(entries: seq<Entry>, seen: set<nat>)
    ensures forall k | 0 <= k < |DistinctFrom(entries, seen)| ::
              DistinctFrom(entries, seen)[k] in entries && DistinctFrom(entries, seen)[k].0.id !in seen
    ensures forall k, l | 0 <= k < l < |DistinctFrom(entries, seen)| ::
              DistinctFrom(entries, seen)[k].0.id != DistinctFrom(entries, seen)[l].0.id
  {
    if |entries| > 0 {
      var e := entries[0];
      var tail := entries[1..];
      if e.0.id in seen {
        DistinctSound(tail, seen);
        assert forall x | x in tail :: x in entries;
      } else {
        var rest := DistinctFrom(tail, seen + {e.0.id});
        DistinctSound(tail, seen + {e.0.id});
        var r := [e] + rest;
        assert forall x | x in tail :: x in entries;
        forall k | 0 <= k < |r| ensures r[k] in entries && r[k].0.id !in seen {
          if k > 0 { assert r[k] == rest[k - 1]; }
        }
        forall k, l | 0 <= k < l < |r| ensures r[k].0.id != r[l].0.id {
          assert r[l] == rest[l - 1];
          if k > 0 { assert r[k] == rest[k - 1]; }
        }
      }
    }
  }

  /** Every element not yet seen keeps an entry. */
  lemma {:induction false} DistinctComplete(entries: seq<Entry>, seen: set<nat>, i: nat)
    requires i < |entries| && entries[i].0.id !in seen
    ensures exists k | 0 <= k < |DistinctFrom(entries, seen)| :: DistinctFrom(entries, seen)[k].0.id == entries[i].0.id
  {
    var e := entries[0];
    var tail := entries[1..];
    var r := DistinctFrom(entries, seen);
    if e.0.id in seen {
      assert entries[i] == tail[i - 1];
      DistinctComplete(tail, seen, i - 1);
    } else if e.0.id == entries[i].0.id {
      assert r[0] == e;
    } else {
      assert entries[i] == tail[i - 1];
      DistinctComplete(tail, seen + {e.0.id}, i - 1);
      var k :| 0 <= k < |DistinctFrom(tail, seen + {e.0.id})| && DistinctFrom(tail, seen + {e.0.id})[k].0.id == entries[i].0.id;
      assert r[k + 1] == DistinctFrom(tail, seen + {e.0.id})[k];
    }
  }

  /** The entry kept for an element is the first entry of that element. */
  lemma {:induction false} DistinctKeepsFirst(entries: seq<Entry>, seen: set<nat>, k: nat)
    requires k < |DistinctFrom(entries, seen)|
    ensures exists i | 0 <= i < |entries| ::
              && entries[i] == DistinctFrom(entries, seen)[k]
              && forall j | 0 <= j < i :: entries[j].0.id != entries[i].0.id
  {
    var r := DistinctFrom(entries, seen);
    var e := entries[0];
    var tail := entries[1..];
    DistinctSound(entries, seen);
    if e.0.id in seen {
      DistinctKeepsFirst(tail, seen, k);
      var i :| 0 <= i < |tail| && tail[i] == r[k] && forall j | 0 <= j < i :: tail[j].0.id != tail[i].0.id;
      assert entries[i + 1] == tail[i];
      assert r[k].0.id !in seen;
      forall j | 0 <= j < i + 1 ensures entries[j].0.id != entries[i + 1].0.id {
        if j > 0 { assert entries[j] == tail[j - 1]; }
      }
    } else if k > 0 {
      var rest := DistinctFrom(tail, seen + {e.0.id});
      assert r[k] == rest[k - 1];
      DistinctKeepsFirst(tail, seen + {e.0.id}, k - 1);
      var i :| 0 <= i < |tail| && tail[i] == rest[k - 1] && forall j | 0 <= j < i :: tail[j].0.id != tail[i].0.id;
      assert entries[i + 1] == tail[i];
      DistinctSound(tail, seen + {e.0.id});
      assert rest[k - 1].0.id !in seen + {e.0.id};
      forall j | 0 <= j < i + 1 ensures entries[j].0.id != entries[i + 1].0.id {
        if j > 0 { assert entries[j] == tail[j - 1]; }
      }
    } else {
      assert entries[0] == r[0];
    }
  }

  /** Some two entries are of different elements. */
  predicate OfTwoElements(entries: seq<Entry>) {
    exists i, j | 0 <= i < |entries| && 0 <= j < |entries| :: entries[i].0.id != entries[j].0.id
  }

  /** More than one entry survives exactly when two entries are of
      different elements. */
  lemma DistinctMoreThanOne(entries: seq<Entry>)
    ensures |DistinctByElement(entries)| > 1 <==> OfTwoElements(entries)
  {
    var r := DistinctByElement(entries);
    DistinctSound(entries, {});
    if |r| > 1 {
      assert r[0].0.id != r[1].0.id;
      var i :| 0 <= i < |entries| && entries[i] == r[0];
      var j :| 0 <= j < |entries| && entries[j] == r[1];
      assert entries[i].0.id != entries[j].0.id;
    }
    if OfTwoElements(entries) {
      var i, j :| 0 <= i < |entries| && 0 <= j < |entries| && entries[i].0.id != entries[j].0.id;
      DistinctComplete(entries, {}, i);
      DistinctComplete(entries, {}, j);
      var k :| 0 <= k < |r| && r[k].0.id == entries[i].0.id;
      var l :| 0 <= l < |r| && r[l].0.id == entries[j].0.id;
      assert k != l;
    }
  }

  function DistinctByElement(entries: seq<Entry>): seq<Entry> {
    DistinctFrom(entries, {})
  }

  /** `errorMappings`: each source element's entries reduced to one per FIR
      element, keeping those with more than one. */
  function ErrorMappings(m: Mappings): Mappings {
    map p | p in m && |DistinctByElement(m[p])| > 1 :: DistinctByElement(m[p])
  }

  /** `collect`: walk the file from a null parent, then the error
      mappings. */
  function Collect(root: FirNode): Mappings {
    ErrorMappings(Visit(root, None, map[]))
  }

  /** What `doRawFirTest` concludes: a pass, or a failure reporting every
      error mapping. */
  datatype Outcome = Passed | Failed(report: Mappings)

  function DoRawFirTest(root: FirNode): Outcome {
    var errors := Collect(root);
    if |errors| > 0 then Failed(errors) else Passed
  }

  // ---------------------------------------------------------------------
  // What the test reports.

  /** Two entries of different FIR elements have source element `p`. */
  predicate SharedIn(entries: seq<Entry>, p: Psi) {
    exists i, j | 0 <= i < |entries| && 0 <= j < |entries| ::
      entries[i].0.psi == Some(p) && entries[j].0.psi == Some(p) && entries[i].0.id != entries[j].0.id
  }

  /** Two different FIR elements of the tree have source element `p`. */
  predicate SharedSource(root: FirNode, p: Psi) {
    SharedIn(Preorder(root, None), p)
  }

  /** The walk files under `p` exactly the entries of the preorder walk
      whose element has source element `p`, so `p` is reported exactly
      when those entries are of more than one element. */
  lemma CollectReducesWalk(root: FirNode, p: Psi)
    ensures var w := WithPsi(Preorder(root, None), p);
            && (p in Collect(root) <==> |DistinctByElement(w)| > 1)
            && (p in Collect(root) ==> Collect(root)[p] == DistinctByElement(w))
  {
    var all := Preorder(root, None);
    var recorded := Visit(root, None, map[]);
    VisitRecordsPreorder(root, None, map[]);
    RecordAllLookup(map[], all, p);
    RecordAllKeys(map[], all, p);
    var w := WithPsi(all, p);
    assert Lookup(recorded, p) == w by {
      assert Lookup(map[], p) + w == w;
    }
    if |DistinctByElement(w)| > 1 {
      assert |w| > 0 by { assert |DistinctFrom(w, {})| <= |w|; }
      assert p in recorded && recorded[p] == w;
    }
  }

  /** Two entries of different elements under `p` are two entries of
      different elements with source element `p`, and back. */
  lemma SharedInSelection(entries: seq<Entry>, p: Psi)
    ensures var w := WithPsi(entries, p);
            SharedIn(entries, p) <==> OfTwoElements(w)
  {
    WithPsiSelects(entries, p);
    SharedInSelected(entries, p, WithPsi(entries, p));
  }

  /** The same, for any selection holding exactly those entries. */
  lemma SharedInSelected(entries: seq<Entry>, p: Psi, w: seq<Entry>)
    requires forall x :: x in w <==> x in entries && x.0.psi == Some(p)
    ensures SharedIn(entries, p) <==> OfTwoElements(w)
  {
    if SharedIn(entries, p) {
      var i, j :| 0 <= i < |entries| && 0 <= j < |entries| &&
                  entries[i].0.psi == Some(p) && entries[j].0.psi == Some(p) && entries[i].0.id != entries[j].0.id;
      assert entries[i] in w && entries[j] in w;
      var a :| 0 <= a < |w| && w[a] == entries[i];
      var b :| 0 <= b < |w| && w[b] == entries[j];
      assert w[a].0.id != w[b].0.id;
    }
    if OfTwoElements(w) {
      var a, b :| 0 <= a < |w| && 0 <= b < |w| && w[a].0.id != w[b].0.id;
      assert w[a] in w && w[b] in w;
      var i :| 0 <= i < |entries| && entries[i] == w[a];
      var j :| 0 <= j < |entries| && entries[j] == w[b];
      assert entries[i].0.psi == Some(p) && entries[j].0.psi == Some(p) && entries[i].0.id != entries[j].0.id;
    }
  }

  /** A source element is reported exactly when two different FIR
      elements have it, and its report is the first visit of each of
      those elements, in walk order. */
  lemma CollectFindsShared(root: FirNode, p: Psi)
    ensures p in Collect(root) <==> SharedSource(root, p)
    ensures p in Collect(root) ==> Collect(root)[p] == DistinctByElement(WithPsi(Preorder(root, None), p))
  {
    CollectReducesWalk(root, p);
    SharedInSelection(Preorder(root, None), p);
    DistinctMoreThanOne(WithPsi(Preorder(root, None), p));
  }

  /** The test fails exactly when some source element is shared by two
      different FIR elements, and its report names every such source
      element, not only the first. */
  lemma TestFailsIffShared(root: FirNode)
    ensures DoRawFirTest(root).Failed? <==> exists p :: SharedSource(root, p)
    ensures DoRawFirTest(root).Failed? ==> forall p :: p in DoRawFirTest(root).report <==> SharedSource(root, p)
  {
    forall p ensures p in Collect(root) <==> SharedSource(root, p) {
      CollectFindsShared(root, p);
    }
    if exists p :: SharedSource(root, p) {
      var p :| SharedSource(root, p);
      assert p in Collect(root).Keys;
    }
  }
}
