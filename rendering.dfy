/**
 Rendering of a logger's key-value context: the text that `getKeysString`
 places between the caller location and the message.

 A Go map has no iteration order, so every rendering takes the order in
 which the map was walked as an explicit sequence of its keys. The lemmas
 show that the order only permutes the rendered entries.
 */
module Rendering {

  /** A value held under a key: Go's `nil`, or a value already turned into its `%v` text. */
  datatype Value = Nil | Val(text: string)

  /** No key occurs twice in the walk. */
  ghost predicate NoDuplicates<T>(o: seq<T>)
  {
    forall i, j :: 0 <= i < j < |o| ==> o[i] != o[j]
  }

  /** `o` is one possible iteration order of a map whose key set is `keys`. */
  ghost predicate Enumerates(o: seq<string>, keys: set<string>)
  {
    NoDuplicates(o) && forall k :: k in o <==> k in keys
  }

  /** The keys of `m` whose value is not nil: the ones that get rendered. */
  ghost function LiveKeys(m: map<string, Value>): set<string>
  {
    set k | k in m && m[k].Val?
  }

  /** The live keys of `m` that the walk `o` visits. */
  ghost function LiveIn(m: map<string, Value>, o: seq<string>): set<string>
  {
    set k | k in o && k in m && m[k].Val?
  }

  /** One rendered entry, `k: v`. */
  function Entry(k: string, v: string): string
  {
    k + ": " + v
  }

  /** The entries rendered while walking `m` in the order `o`, nil values skipped. */
  function Entries(m: map<string, Value>, o: seq<string>): (r: seq<string>)
    ensures |r| <= |o|
  {
    if o == [] then []
    else
      var k := o[|o| - 1];
      Entries(m, o[..|o| - 1]) + (if k in m && m[k].Val? then [Entry(k, m[k].text)] else [])
  }

  /** `strings.Join`: the parts with `sep` between neighbours. */
  function Join(parts: seq<string>, sep: string): string
  {
    if |parts| == 0 then ""
    else if |parts| == 1 then parts[0]
    else parts[0] + sep + Join(parts[1..], sep)
  }

  /** Message keys first, then the logger's own keys, with no de-duplication. */
  function AllEntries(m: map<string, Value>, om: seq<string>, own: map<string, Value>, oo: seq<string>): seq<string>
  {
    Entries(m, om) + Entries(own, oo)
  }

  /** The keys segment of a line: empty when nothing survives, otherwise `{ k: v, ... }`. */
  function KeysString(m: map<string, Value>, om: seq<string>, own: map<string, Value>, oo: seq<string>): string
  {
    var entries := AllEntries(m, om, own, oo);
    if |entries| == 0 then "" else "{ " + Join(entries, ", ") + " }"
  }

  lemma {:induction false} EntriesAppend(m: map<string, Value>, a: seq<string>, b: seq<string>)
    ensures Entries(m, a + b) == Entries(m, a) + Entries(m, b)
    decreases |b|
  {
    if b == [] {
      assert a + b == a;
    } else {
      var b' := b[..|b| - 1];
      assert (a + b)[..|a + b| - 1] == a + b';
      EntriesAppend(m, a, b');
    }
  }

  /** Dropping the last key of a walk keeps it free of duplicates, and that key is not among the rest. */
  lemma DropLast<T>(o: seq<T>)
    requires o != [] && NoDuplicates(o)
    ensures NoDuplicates(o[..|o| - 1]) && o[|o| - 1] !in o[..|o| - 1]
  {
    var o' := o[..|o| - 1];
    assert forall i :: 0 <= i < |o'| ==> o'[i] == o[i];
  }

  /** Exactly one entry per live key visited: nil values are dropped and nothing else is. */
  lemma {:induction false} EntriesCount(m: map<string, Value>, o: seq<string>)
    requires NoDuplicates(o)
    ensures |Entries(m, o)| == |LiveIn(m, o)|
    decreases |o|
  {
    if o == [] {
      assert LiveIn(m, o) == {};
    } else {
      var o', k := o[..|o| - 1], o[|o| - 1];
      DropLast(o);
      EntriesCount(m, o');
      assert o == o' + [k];
      if k in m && m[k].Val? {
        assert LiveIn(m, o) == LiveIn(m, o') + {k};
      } else {
        assert LiveIn(m, o) == LiveIn(m, o');
      }
    }
  }

  /** An entry is rendered iff some visited key holds a non-nil value that renders to it. */
  lemma {:induction false} EntriesMember(m: map<string, Value>, o: seq<string>, e: string)
    ensures e in Entries(m, o) <==> exists k :: k in o && k in m && m[k].Val? && e == Entry(k, m[k].text)
    decreases |o|
  {
    if o != [] {
      var o', k := o[..|o| - 1], o[|o| - 1];
      EntriesMember(m, o', e);
      assert o == o' + [k];
      assert forall j :: j in o <==> j in o' || j == k;
    }
  }

  /** In a walk without duplicates, every key occurs once. */
  lemma {:induction false} NoDuplicatesCount<T>(o: seq<T>, x: T)
    requires NoDuplicates(o)
    ensures multiset(o)[x] == if x in o then 1 else 0
    decreases |o|
  {
    if o != [] {
      var o' := o[..|o| - 1];
      DropLast(o);
      NoDuplicatesCount(o', x);
      assert o == o' + [o[|o| - 1]];
    }
  }

  /** Two iteration orders of the same map visit the same keys. */
  lemma EnumerationsArePermutations(o1: seq<string>, o2: seq<string>, keys: set<string>)
    requires Enumerates(o1, keys) && Enumerates(o2, keys)
    ensures multiset(o1) == multiset(o2)
  {
    forall x ensures multiset(o1)[x] == multiset(o2)[x] {
      NoDuplicatesCount(o1, x);
      NoDuplicatesCount(o2, x);
    }
  }

  /** Removing the key at position `i` from a walk removes exactly its entry, if it had one. */
  lemma EntriesRemoveAt(m: map<string, Value>, o: seq<string>, i: nat)
    requires i < |o|
    ensures multiset(Entries(m, o)) == multiset(Entries(m, o[..i] + o[i + 1..])) + multiset(Entries(m, [o[i]]))
  {
    var before, after := o[..i], o[i + 1..];
    assert o == before + [o[i]] + after;
    EntriesAppend(m, before + [o[i]], after);
    EntriesAppend(m, before, [o[i]]);
    EntriesAppend(m, before, after);
  }

  /** Removing position `i` from a walk removes one occurrence of its key. */
  lemma RemoveAtMultiset(o: seq<string>, i: nat)
    requires i < |o|
    ensures multiset(o[..i] + o[i + 1..]) == multiset(o) - multiset{o[i]}
  {
    assert o == o[..i] + [o[i]] + o[i + 1..];
  }

  /** Walking a permutation of the keys renders a permutation of the entries. */
  lemma {:induction false} EntriesPermutation(m: map<string, Value>, o1: seq<string>, o2: seq<string>)
    requires multiset(o1) == multiset(o2)
    ensures multiset(Entries(m, o1)) == multiset(Entries(m, o2))
    decreases |o1|
  {
    if o1 == [] {
      assert |o2| == |multiset(o2)| == 0;
    } else {
      var last := |o1| - 1;
      var k := o1[last];
      assert k in multiset(o2);
      var i :| 0 <= i < |o2| && o2[i] == k;
      RemoveAtMultiset(o1, last);
      RemoveAtMultiset(o2, i);
      assert o1[..last] + o1[last + 1..] == o1[..last];
      EntriesPermutation(m, o1[..last], o2[..i] + o2[i + 1..]);
      EntriesRemoveAt(m, o1, last);
      EntriesRemoveAt(m, o2, i);
    }
  }

  /** Which of Go's iteration orders is taken changes only the order of the entries. */
  lemma KeysOrderIrrelevant(m: map<string, Value>, om1: seq<string>, om2: seq<string>,
                            own: map<string, Value>, oo1: seq<string>, oo2: seq<string>)
    requires Enumerates(om1, m.Keys) && Enumerates(om2, m.Keys)
    requires Enumerates(oo1, own.Keys) && Enumerates(oo2, own.Keys)
    ensures multiset(AllEntries(m, om1, own, oo1)) == multiset(AllEntries(m, om2, own, oo2))
  {
    EnumerationsArePermutations(om1, om2, m.Keys);
    EnumerationsArePermutations(oo1, oo2, own.Keys);
    EntriesPermutation(m, om1, om2);
    EntriesPermutation(own, oo1, oo2);
  }

  /** A full walk of a map visits exactly its live keys. */
  lemma LiveInFullWalk(m: map<string, Value>, o: seq<string>)
    requires Enumerates(o, m.Keys)
    ensures LiveIn(m, o) == LiveKeys(m)
  {
  }

  /**
   One entry per live key of the message keys plus one per live key of the
   logger's keys, even when the two maps share a key.
   */
  lemma AllEntriesCount(m: map<string, Value>, om: seq<string>, own: map<string, Value>, oo: seq<string>)
    requires Enumerates(om, m.Keys) && Enumerates(oo, own.Keys)
    ensures |AllEntries(m, om, own, oo)| == |LiveKeys(m)| + |LiveKeys(own)|
  {
    EntriesCount(m, om);
    EntriesCount(own, oo);
    LiveInFullWalk(m, om);
    LiveInFullWalk(own, oo);
  }

  /** Every rendered entry comes from a live key of one of the maps, and every live key is rendered. */
  lemma AllEntriesMember(m: map<string, Value>, om: seq<string>, own: map<string, Value>, oo: seq<string>, e: string)
    requires Enumerates(om, m.Keys) && Enumerates(oo, own.Keys)
    ensures e in AllEntries(m, om, own, oo) <==>
            (exists k :: k in m && m[k].Val? && e == Entry(k, m[k].text)) ||
            (exists k :: k in own && own[k].Val? && e == Entry(k, own[k].text))
  {
    EntriesMember(m, om, e);
    EntriesMember(own, oo, e);
  }

  /** The keys segment is empty exactly when every value in both maps is nil (or both are empty). */
  lemma KeysStringEmptyIff(m: map<string, Value>, om: seq<string>, own: map<string, Value>, oo: seq<string>)
    requires Enumerates(om, m.Keys) && Enumerates(oo, own.Keys)
    ensures KeysString(m, om, own, oo) == "" <==> LiveKeys(m) == {} && LiveKeys(own) == {}
  {
    AllEntriesCount(m, om, own, oo);
  }

  /** A non-empty keys segment is framed by `{ ` and ` }`. */
  lemma KeysStringFramed(m: map<string, Value>, om: seq<string>, own: map<string, Value>, oo: seq<string>)
    requires Enumerates(om, m.Keys) && Enumerates(oo, own.Keys)
    requires LiveKeys(m) != {} || LiveKeys(own) != {}
    ensures var s := KeysString(m, om, own, oo);
            |s| >= 4 && s[..2] == "{ " && s[|s| - 2..] == " }"
  {
    AllEntriesCount(m, om, own, oo);
  }

  /** The example map walked in its written order. */
  lemma NilValueWalk(own: map<string, Value>)
    requires own == map["things" := Val("stuff"), "otherThings" := Nil]
    ensures Entries(own, ["things", "otherThings"]) == ["things: stuff"]
  {
    var one, two := ["things"], ["things", "otherThings"];
    assert one[..0] == [] && one[0] == "things";
    assert Entries(own, one) == [Entry("things", "stuff")];
    assert two[..1] == one && two[1] == "otherThings";
    assert Entries(own, two) == Entries(own, one);
    assert Entry("things", "stuff") == "things: stuff";
  }

  /** A single live key renders as `{ k: v }`. */
  lemma SingleKeyRendering(k: string, v: string)
    ensures KeysString(map[], [], map[k := Val(v)], [k]) == "{ " + k + ": " + v + " }"
  {
    assert [k][..0] == [];
    assert AllEntries(map[], [], map[k := Val(v)], [k]) == [Entry(k, v)];
  }

  /** A map that renders one entry in some complete walk renders just that entry in every complete walk. */
  lemma SingleEntryAnyOrder(m: map<string, Value>, o: seq<string>, listed: seq<string>, e: string)
    requires Enumerates(o, m.Keys) && Enumerates(listed, m.Keys)
    requires Entries(m, listed) == [e]
    ensures Entries(m, o) == [e]
  {
    EnumerationsArePermutations(o, listed, m.Keys);
    EntriesPermutation(m, o, listed);
    var es := Entries(m, o);
    assert |es| == |multiset(es)| == 1;
    assert es[0] in multiset(es);
  }

  /**
   A key set to nil next to one live key renders only the live key, whichever
   order the map is walked in: `{ things: stuff }`.
   */
  lemma NilValueOmitted(o: seq<string>)
    requires Enumerates(o, {"things", "otherThings"})
    ensures KeysString(map[], [], map["things" := Val("stuff"), "otherThings" := Nil], o) == "{ things: stuff }"
  {
    var own := map["things" := Val("stuff"), "otherThings" := Nil];
    var listed := ["things", "otherThings"];
    assert own.Keys == {"things", "otherThings"};
    assert Enumerates(listed, own.Keys) by {
      assert forall k :: k in listed <==> k == "things" || k == "otherThings";
    }
    NilValueWalk(own);
    SingleEntryAnyOrder(own, o, listed, "things: stuff");
    assert AllEntries(map[], [], own, o) == ["things: stuff"];
  }
}
