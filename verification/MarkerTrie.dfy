/**
 The marker trie of scripts/ops/groups-inventory-classification.ts. A node reference is an index into
 the node list.
 */
module MarkerTrie {
  datatype Node = Node(children: map<char, nat>, terminal: bool)

  /** A member of `markers` stands in `value` from `offset` to `end`. */
  predicate IsMarkerEnd(markers: set<string>, value: string, offset: nat, end: int) {
    offset < end <= |value| && value[offset..end] in markers
  }

  // ----- what the node list means: `at` is the node each text leads to from the root -----

  ghost predicate ChildOk(nodes: seq<Node>, at: map<string, nat>, t: string, c: char)
    requires t in at && at[t] < |nodes|
  {
    && (c in nodes[at[t]].children <==> t + [c] in at)
    && (t + [c] in at ==> nodes[at[t]].children[c] == at[t + [c]])
  }

  ghost predicate PrefixOk(at: map<string, nat>, t: string) { t != "" ==> t[..|t| - 1] in at }

  ghost predicate Shape(nodes: seq<Node>, at: map<string, nat>) {
    && "" in at && at[""] == 0
    && (forall t :: t in at ==> at[t] < |nodes|)
    && (forall t, u :: t in at && u in at && at[t] == at[u] ==> t == u)
    && (forall t {:trigger PrefixOk(at, t)} :: t in at ==> PrefixOk(at, t))
    && (forall t, c {:trigger ChildOk(nodes, at, t, c)} :: t in at ==> ChildOk(nodes, at, t, c))
  }

  /** The terminal nodes are those of the markers. */
  ghost predicate Marks(nodes: seq<Node>, at: map<string, nat>, markers: set<string>) {
    && "" !in markers
    && (forall m :: m in markers ==> m in at)
    && (forall t :: t in at ==> at[t] < |nodes| && (nodes[at[t]].terminal <==> t in markers))
  }

  ghost predicate IsTrie(nodes: seq<Node>, at: map<string, nat>, markers: set<string>) {
    Shape(nodes, at) && Marks(nodes, at, markers)
  }

  lemma AtNode(nodes: seq<Node>, at: map<string, nat>, markers: set<string>, t: string, c: char)
    requires IsTrie(nodes, at, markers) && t in at
    ensures at[t] < |nodes| && ChildOk(nodes, at, t, c)
    ensures nodes[at[t]].terminal <==> t in markers
  {
  }

  lemma RootIsThere(nodes: seq<Node>, at: map<string, nat>, markers: set<string>)
    requires IsTrie(nodes, at, markers)
    ensures "" in at && at[""] == 0 && "" !in markers
  {
  }

  function Grown(nodes: seq<Node>, node: nat, c: char): seq<Node>
    requires node < |nodes|
  {
    nodes[node := nodes[node].(children := nodes[node].children[c := |nodes|])] + [Node(map[], false)]
  }

  lemma GrownChildOk(nodes: seq<Node>, at: map<string, nat>, text: string, c: char, t: string, d: char)
    requires Shape(nodes, at) && text in at && text + [c] !in at
    requires t in at || t == text + [c]
    ensures var more := at[text + [c] := |nodes|]; ChildOk(Grown(nodes, at[text], c), more, t, d)
  {
    var all, more := Grown(nodes, at[text], c), at[text + [c] := |nodes|];
    if t == text + [c] {
      assert (t + [d])[..|t + [d]| - 1] == t;
      assert PrefixOk(at, t + [d]) || t + [d] !in at;
      assert t + [d] != t;
    } else {
      assert ChildOk(nodes, at, t, d);
      assert all[at[t]].children == if t == text then nodes[at[t]].children[c := |nodes|] else nodes[at[t]].children;
      assert t + [d] == text + [c] <==> t == text && d == c by {
        if t + [d] == text + [c] {
          assert t == (t + [d])[..|t|] && text == (text + [c])[..|text|];
          assert (t + [d])[|t|] == d && (text + [c])[|text|] == c;
        }
      }
    }
  }

  lemma GrownShape(nodes: seq<Node>, at: map<string, nat>, text: string, c: char)
    requires Shape(nodes, at) && text in at && text + [c] !in at
    ensures Shape(Grown(nodes, at[text], c), at[text + [c] := |nodes|])
  {
    var all, more := Grown(nodes, at[text], c), at[text + [c] := |nodes|];
    assert forall t :: t in more ==> more[t] < |all|;
    forall t, d | t in more
      ensures ChildOk(all, more, t, d)
    {
      GrownChildOk(nodes, at, text, c, t, d);
    }
    hide ChildOk;
    forall t | t in more
      ensures PrefixOk(more, t)
    {
      assert (text + [c])[..|text|] == text;
      assert t in at ==> PrefixOk(at, t);
    }
  }

  lemma GrownIsTrie(nodes: seq<Node>, at: map<string, nat>, markers: set<string>, text: string, c: char)
    requires IsTrie(nodes, at, markers) && text in at && text + [c] !in at
    ensures IsTrie(Grown(nodes, at[text], c), at[text + [c] := |nodes|], markers)
  {
    GrownShape(nodes, at, text, c);
    hide Shape;
    assert at[text] < |nodes|;
  }

  lemma MarkedIsTrie(nodes: seq<Node>, at: map<string, nat>, markers: set<string>, t: string)
    requires IsTrie(nodes, at, markers) && t in at && t != ""
    ensures at[t] < |nodes|
    ensures IsTrie(nodes[at[t] := nodes[at[t]].(terminal := true)], at, markers + {t})
  {
    var all := nodes[at[t] := nodes[at[t]].(terminal := true)];
    forall u, c | u in at
      ensures ChildOk(all, at, u, c)
    {
      assert ChildOk(nodes, at, u, c);
    }
  }

  lemma {:induction false} PrefixesAreIn(nodes: seq<Node>, at: map<string, nat>, t: string, n: nat)
    requires Shape(nodes, at) && n <= |t| && t in at
    ensures t[..n] in at
    decreases |t|
  {
    if n < |t| {
      assert PrefixOk(at, t);
      PrefixesAreIn(nodes, at, t[..|t| - 1], n);
      assert t[..|t| - 1][..n] == t[..n];
    } else {
      assert t[..n] == t;
    }
  }

  lemma NoMarkerBeyond(nodes: seq<Node>, at: map<string, nat>, markers: set<string>, value: string, offset: nat,
                       index: nat)
    requires IsTrie(nodes, at, markers) && offset <= index <= |value| && value[offset..index] !in at
    ensures forall e :: index <= e <= |value| ==> value[offset..e] !in markers
  {
    forall e | index <= e <= |value|
      ensures value[offset..e] !in at
    {
      assert value[offset..e][..index - offset] == value[offset..index];
      if value[offset..e] in at {
        PrefixesAreIn(nodes, at, value[offset..e], index - offset);
      }
    }
  }

  class Trie {
    var nodes: seq<Node>
    ghost var markers: set<string>
    ghost var at: map<string, nat>

    ghost predicate Valid()
      reads this
    {
      IsTrie(nodes, at, markers)
    }

    /** `buildMarkerTrie`; empty markers are skipped. */
    constructor (all: seq<string>)
      ensures Valid() && markers == set m | m in all && m != ""
    {
      nodes := [Node(map[], false)];
      markers := {};
      at := map["" := 0];
      new;
      for i := 0 to |all|
        invariant Valid() && markers == set m | m in all[..i] && m != ""
      {
        hide IsTrie;
        assert all[..i + 1] == all[..i] + [all[i]];
        if all[i] != "" {
          Add(all[i]);
        }
      }
      assert all[..|all|] == all;
    }

    method Add(marker: string)
      requires Valid() && marker != ""
      modifies this
      ensures Valid() && markers == old(markers) + {marker}
    {
      hide IsTrie;
      RootIsThere(nodes, at, markers);
      var node := 0;
      for i := 0 to |marker|
        invariant Valid() && markers == old(markers)
        invariant marker[..i] in at && node == at[marker[..i]]
      {
        ghost var text := marker[..i];
        assert marker[..i + 1] == text + [marker[i]];
        AtNode(nodes, at, markers, text, marker[i]);
        if marker[i] !in nodes[node].children {
          GrownIsTrie(nodes, at, markers, text, marker[i]);
          at := at[text + [marker[i]] := |nodes|];
          nodes := nodes[node := nodes[node].(children := nodes[node].children[marker[i] := |nodes|])] +
            [Node(map[], false)];
        }
        node := nodes[node].children[marker[i]];
      }
      assert marker[..|marker|] == marker;
      MarkedIsTrie(nodes, at, markers, marker);
      nodes := nodes[node := nodes[node].(terminal := true)];
      markers := markers + {marker};
    }

    /** `markerEndOffsets`: all the ends, in increasing order. */
    method EndOffsets(value: string, offset: nat) returns (ends: seq<nat>)
      requires Valid()
      ensures forall e :: e in ends <==> IsMarkerEnd(markers, value, offset, e)
      ensures forall i, j :: 0 <= i < j < |ends| ==> ends[i] < ends[j]
    {
      hide IsTrie;
      ends := [];
      if offset >= |value| {
        return;
      }
      RootIsThere(nodes, at, markers);
      var node := 0;
      assert value[offset..offset] == "";
      for index := offset to |value|
        invariant value[offset..index] in at && node == at[value[offset..index]]
        invariant forall e :: e in ends <==> e <= index && IsMarkerEnd(markers, value, offset, e)
        invariant forall i :: 0 <= i < |ends| ==> ends[i] <= index
        invariant forall i, j :: 0 <= i < j < |ends| ==> ends[i] < ends[j]
      {
        ghost var text := value[offset..index];
        assert value[offset..index + 1] == text + [value[index]];
        AtNode(nodes, at, markers, text, value[index]);
        if value[index] !in nodes[node].children {
          NoMarkerBeyond(nodes, at, markers, value, offset, index + 1);
          return;
        }
        node := nodes[node].children[value[index]];
        AtNode(nodes, at, markers, text + [value[index]], value[index]);
        if nodes[node].terminal {
          ends := ends + [index + 1];
        }
      }
    }
  }
}
