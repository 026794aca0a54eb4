/**
 * The idiom the display helpers share: `[a, b, c].filter(keep).join(", ")`.
 */
module Parts {
  import opened Strings
  import opened Lists

  const Separator: string := ", "

  /** The kept parts, in order, separated by ", ". */
  function JoinKept(parts: seq<string>, keep: string -> bool): string {
    Join(Filter(parts, keep), Separator)
  }

  /** When `keep` only keeps non-empty parts, the join is empty exactly when no part is kept. */
  lemma JoinKeptEmptyIff(parts: seq<string>, keep: string -> bool)
    requires forall p :: keep(p) ==> p != ""
    ensures JoinKept(parts, keep) == "" <==> forall i :: 0 <= i < |parts| ==> !keep(parts[i])
  {
    var kept := Filter(parts, keep);
    forall k | 0 <= k < |kept| ensures kept[k] != "" {
      assert kept[k] in kept;
    }
    JoinEmptyIff(kept, Separator);
    if kept != [] {
      assert kept[0] in kept;
    }
    if exists i :: 0 <= i < |parts| && keep(parts[i]) {
      var i :| 0 <= i < |parts| && keep(parts[i]);
      assert parts[i] in kept;
    }
  }

  /** Every kept part appears, in full, in the join. */
  lemma JoinKeptContains(parts: seq<string>, keep: string -> bool, i: nat)
    requires i < |parts| && keep(parts[i])
    ensures Contains(JoinKept(parts, keep), parts[i])
  {
    var kept := Filter(parts, keep);
    assert parts[i] in kept;
    var k :| 0 <= k < |kept| && kept[k] == parts[i];
    JoinContainsPart(kept, Separator, k);
  }

  /** With every part kept, the join lists all of them in order. */
  lemma JoinKeptAll(parts: seq<string>, keep: string -> bool)
    requires forall i :: 0 <= i < |parts| ==> keep(parts[i])
    ensures JoinKept(parts, keep) == Join(parts, Separator)
  {
  }

  /**
   * Two ways of keeping parts give the same join when the first drops both
   * ends of the list and otherwise agrees with the second.
   */
  lemma JoinKeptInner(first: string, middle: seq<string>, last: string, keep: string -> bool, keepInner: string -> bool)
    requires !keep(first) && !keep(last)
    requires forall i :: 0 <= i < |middle| ==> keep(middle[i]) == keepInner(middle[i])
    ensures JoinKept([first] + middle + [last], keep) == JoinKept(middle, keepInner)
  {
    FilterAppend([first] + middle, [last], keep);
    FilterAppend([first], middle, keep);
    FilterAgree(middle, keep, keepInner);
    assert Filter([first] + middle + [last], keep) == Filter(middle, keepInner);
  }

  /** Of three parts, the join is empty exactly when none is kept. */
  lemma JoinKeptThreeEmptyIff(a: string, b: string, c: string, keep: string -> bool)
    requires forall p :: keep(p) ==> p != ""
    ensures JoinKept([a, b, c], keep) == "" <==> !keep(a) && !keep(b) && !keep(c)
  {
    var parts := [a, b, c];
    JoinKeptEmptyIff(parts, keep);
    assert parts[0] == a && parts[1] == b && parts[2] == c;
  }

  /** Three kept parts are listed in order. */
  lemma JoinKeptThree(a: string, b: string, c: string, keep: string -> bool)
    requires keep(a) && keep(b) && keep(c)
    ensures JoinKept([a, b, c], keep) == a + Separator + b + Separator + c
  {
    var parts := [a, b, c];
    assert forall i :: 0 <= i < |parts| ==> keep(parts[i]);
    JoinKeptAll(parts, keep);
    JoinThree(a, b, c, Separator);
  }

  lemma JoinThree(a: string, b: string, c: string, sep: string)
    ensures Join([a, b, c], sep) == a + sep + b + sep + c
  {
    assert [a, b, c][..2] == [a, b];
    assert [a, b][..1] == [a];
    assert Join([a], sep) == a;
    assert Join([a, b], sep) == a + sep + b;
    assert Join([a, b, c], sep) == Join([a, b], sep) + sep + c;
  }
}
