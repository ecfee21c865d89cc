/** Sorting the entries of a tree by name, in the order of the characters. */
module NameOrder {
  import opened Basics
  import opened Snapshots

  predicate Less(a: string, b: string) {
    b != "" && (a == "" || a[0] < b[0] || (a[0] == b[0] && Less(a[1..], b[1..])))
  }

  lemma {:induction false} LessTransitive(a: string, b: string, c: string)
    requires Less(a, b) && Less(b, c)
    ensures Less(a, c)
  {
    if a != "" && a[0] == b[0] == c[0] {
      LessTransitive(a[1..], b[1..], c[1..]);
    }
  }

  /** Of two names exactly one is less, unless they are the same. */
  lemma {:induction false} LessTotal(a: string, b: string)
    ensures a != b ==> (Less(a, b) <==> !Less(b, a))
    ensures a == b ==> !Less(a, b)
  {
    if a != "" && b != "" && a[0] == b[0] {
      LessTotal(a[1..], b[1..]);
      assert a == [a[0]] + a[1..] && b == [b[0]] + b[1..];
    }
  }

  ghost predicate InOrder(es: seq<Entry>) {
    forall i, j :: 0 <= i < j < |es| ==> Less(es[i].name, es[j].name)
  }

  ghost predicate DistinctNames(es: seq<Entry>) {
    forall i, j :: 0 <= i < j < |es| ==> es[i].name != es[j].name
  }

  function Insert(e: Entry, es: seq<Entry>): seq<Entry> {
    if es == [] || Less(e.name, es[0].name) then [e] + es else [es[0]] + Insert(e, es[1..])
  }

  function SortByName(es: seq<Entry>): seq<Entry> {
    if es == [] then [] else Insert(es[0], SortByName(es[1..]))
  }

  lemma {:induction false} InsertKeeps(e: Entry, es: seq<Entry>)
    requires InOrder(es) && forall d :: d in es ==> d.name != e.name
    ensures InOrder(Insert(e, es))
    ensures forall d :: d in Insert(e, es) <==> d == e || d in es
  {
    if es != [] {
      var rest := es[1..];
      assert es[0] in es && forall d :: d in es <==> d == es[0] || d in rest;
      if Less(e.name, es[0].name) {
        forall i | 0 < i < |es| ensures Less(e.name, es[i].name) {
          LessTransitive(e.name, es[0].name, es[i].name);
        }
      } else {
        LessTotal(e.name, es[0].name);
        InsertKeeps(e, rest);
        var tail := Insert(e, rest);
        forall i | 0 <= i < |tail| ensures Less(es[0].name, tail[i].name) {
          assert tail[i] in tail;
        }
      }
    }
  }

  /** Sorting keeps the entries and puts them in order. */
  lemma {:induction false} SortIsSorted(es: seq<Entry>)
    requires DistinctNames(es)
    ensures InOrder(SortByName(es))
    ensures forall e :: e in SortByName(es) <==> e in es
  {
    if es != [] {
      SortIsSorted(es[1..]);
      forall d | d in SortByName(es[1..]) ensures d.name != es[0].name {
        assert d in es[1..];
      }
      InsertKeeps(es[0], SortByName(es[1..]));
      assert forall d :: d in es <==> d == es[0] || d in es[1..];
    }
  }

  lemma OrderedIsDistinct(es: seq<Entry>)
    requires InOrder(es)
    ensures DistinctNames(es)
  {
    forall i, j | 0 <= i < j < |es| ensures es[i].name != es[j].name {
      LessTotal(es[i].name, es[j].name);
    }
  }

  /** There is only one order for a set of entries. */
  lemma {:induction false} OrderIsUnique(a: seq<Entry>, b: seq<Entry>)
    requires InOrder(a) && InOrder(b) && forall e :: e in a <==> e in b
    ensures a == b
  {
    assert a != [] ==> a[0] in b;
    assert b != [] ==> b[0] in a;
    if a != [] {
      HeadIsFirst(a, b);
      forall e ensures e in a[1..] <==> e in b[1..] {
        TailIsRest(a, e);
        TailIsRest(b, e);
      }
      OrderIsUnique(a[1..], b[1..]);
      assert a == [a[0]] + a[1..] && b == [b[0]] + b[1..];
    }
  }

  lemma HeadIsFirst(a: seq<Entry>, b: seq<Entry>)
    requires InOrder(a) && InOrder(b) && a != [] && b != [] && a[0] in b && b[0] in a
    ensures a[0] == b[0]
  {
    var i :| 0 <= i < |b| && b[i] == a[0];
    var j :| 0 <= j < |a| && a[j] == b[0];
    LessTotal(a[0].name, b[0].name);
  }

  lemma TailIsRest(a: seq<Entry>, e: Entry)
    requires InOrder(a) && a != []
    ensures e in a[1..] <==> e in a && e != a[0]
  {
    if e in a[1..] {
      var i :| 0 < i < |a| && a[i] == e;
      LessTotal(a[0].name, e.name);
    }
  }

  /** Listings of the same entries sort to the same sequence. */
  lemma SortIgnoresOrder(a: seq<Entry>, b: seq<Entry>)
    requires DistinctNames(a) && DistinctNames(b) && forall e :: e in a <==> e in b
    ensures SortByName(a) == SortByName(b)
  {
    SortIsSorted(a);
    SortIsSorted(b);
    OrderIsUnique(SortByName(a), SortByName(b));
  }
}
