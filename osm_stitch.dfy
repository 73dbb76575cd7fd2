/** How get_buildings joins the way parts of a multipolygon relation into its outer chain
    and its courtyard chains (utils/utils_osm.py:153-208). */
module OsmStitch {
  import opened Common
  import opened OsmFeatures

  // ------------------------------------------------------------ the part list

  /** The position of the first part with the given id. */
  function FindPart(parts: seq<Part>, ref: int): (r: Option<nat>)
    ensures r.None? <==> forall j :: 0 <= j < |parts| ==> parts[j].id != ref
    ensures r.Some? ==> (r.value < |parts| && parts[r.value].id == ref &&
      forall j :: 0 <= j < r.value ==> parts[j].id != ref)
  {
    if parts == [] then None
    else if parts[0].id == ref then Some(0)
    else match FindPart(parts[1..], ref)
      case None => None
      case Some(k) => assert forall j :: 1 <= j < k + 1 ==> parts[j] == parts[1..][j - 1]; Some(k + 1)
  }

  /** The search loop `for k, z in enumerate(ways_part)` with its `break`. Its guard
      `k == len(ways_part)` can never hold inside the loop and is left out. */
  method SearchPart(parts: seq<Part>, ref: int) returns (found: Option<nat>)
    ensures found == FindPart(parts, ref)
  {
    found := None;
    for k := 0 to |parts|
      invariant forall j :: 0 <= j < k ==> parts[j].id != ref
    {
      if ref == parts[k].id {
        found := Some(k);
        break;
      }
    }
  }

  /** `item = ways_part.pop(k)` followed by `ways_part.append(item)`: the used part moves to
      the end, and the list keeps its length and its elements. */
  function MoveToEnd(parts: seq<Part>, k: nat): (r: seq<Part>)
    requires k < |parts|
    ensures |r| == |parts| && Last(r) == parts[k]
    ensures forall i :: 0 <= i < |parts| ==>
      r[i] == if i < k then parts[i] else if i < |parts| - 1 then parts[i + 1] else parts[k]
    ensures multiset(r) == multiset(parts)
  {
    assert parts == parts[..k] + [parts[k]] + parts[k + 1..];
    parts[..k] + parts[k + 1..] + [parts[k]]
  }

  /** No two parts share an id. */
  predicate UniqueIds(parts: seq<Part>)
  {
    forall i, j :: 0 <= i < j < |parts| ==> parts[i].id != parts[j].id
  }

  /** The nodes of the part with the given id, or nothing. */
  function NodesWithId(parts: seq<Part>, id: int): seq<int>
  {
    match FindPart(parts, id)
    case None => []
    case Some(k) => parts[k].nodes
  }

  /** When ids are unique, moving a part to the end keeps them unique and changes no lookup. */
  lemma MoveToEndKeepsLookups(parts: seq<Part>, k: nat, id: int)
    requires k < |parts| && UniqueIds(parts)
    ensures UniqueIds(MoveToEnd(parts, k))
    ensures NodesWithId(MoveToEnd(parts, k), id) == NodesWithId(parts, id)
  {
    MoveToEndUnique(parts, k);
    MoveToEndLookup(parts, k, id);
  }

  lemma MoveToEndUnique(parts: seq<Part>, k: nat)
    requires k < |parts| && UniqueIds(parts)
    ensures UniqueIds(MoveToEnd(parts, k))
  {
    var q := MoveToEnd(parts, k);
    var n := |parts|;
    forall i, j | 0 <= i < j < n ensures q[i].id != q[j].id {
      var i' := if i < k then i else if i < n - 1 then i + 1 else k;
      var j' := if j < k then j else if j < n - 1 then j + 1 else k;
      assert q[i] == parts[i'] && q[j] == parts[j'] && i' != j';
    }
  }

  lemma MoveToEndLookup(parts: seq<Part>, k: nat, id: int)
    requires k < |parts| && UniqueIds(parts)
    ensures NodesWithId(MoveToEnd(parts, k), id) == NodesWithId(parts, id)
  {
    var q := MoveToEnd(parts, k);
    var n := |parts|;
    match FindPart(parts, id)
    case None =>
      forall i | 0 <= i < n ensures q[i].id != id {
        assert q[i] == parts[if i < k then i else if i < n - 1 then i + 1 else k];
      }
    case Some(j) =>
      var j' := if j < k then j else if j > k then j - 1 else n - 1;
      assert q[j'] == parts[j];
      forall i | 0 <= i < j' ensures q[i].id != id {
        var i' := if i < k then i else i + 1;
        assert q[i] == parts[i'] && i' != j;
      }
      FindPartAt(q, j', id);
  }

  /** A position holding the id, with none before it, is where the search stops. */
  lemma FindPartAt(parts: seq<Part>, q: nat, x: int)
    requires q < |parts| && parts[q].id == x
    requires forall j :: 0 <= j < q ==> parts[j].id != x
    ensures FindPart(parts, x) == Some(q)
  {
    var v := FindPart(parts, x).value;
    assert !(v < q) && !(q < v);
  }

  // ------------------------------------------------------------ one member

  /** The chain a part contributes: turned round only when the chain gathered so far is
      non-empty and its tail is not the part's head, so that whichever end of the part
      touches the tail, the oriented chain starts there. */
  function Oriented(acc: seq<int>, nodes: seq<int>): (r: seq<int>)
    requires acc == [] || nodes != []
    ensures r == nodes || r == Reversed(nodes)
    ensures r != nodes ==> acc != [] && Last(acc) != nodes[0]
    ensures acc != [] && (Last(acc) == nodes[0] || Last(acc) == Last(nodes)) ==> r[0] == Last(acc)
  {
    if |acc| > 0 && Last(acc) != nodes[0] then Reversed(nodes) else nodes
  }

  /** How many positions of `s` hold a node that is not in `acc`, repeats counted. */
  function CountNew(acc: seq<int>, s: seq<int>): nat
  {
    if s == [] then 0 else (if s[0] in acc then 0 else 1) + CountNew(acc, s[1..])
  }

  /** The list comprehension at lines 171-175: the nodes of the chain not already gathered,
      the chain's last node always. Being a subsequence that keeps every such position and
      no other before the last, with exactly one more element than those positions, fixes
      the result even when the chain repeats a node. */
  function KeepNew(acc: seq<int>, chain: seq<int>): (r: seq<int>)
    ensures IsSubseq(r, chain)
    ensures chain != [] ==> r != [] && Last(r) == Last(chain)
    ensures forall k :: 0 <= k < |r| - 1 ==> r[k] !in acc
    ensures forall j :: 0 <= j < |chain| - 1 && chain[j] !in acc ==> chain[j] in r
    ensures chain != [] ==> |r| == 1 + CountNew(acc, DropLast(chain))
    ensures acc == [] ==> r == chain
    decreases |chain|
  {
    if |chain| <= 1 then chain
    else
      var rest := KeepNew(acc, chain[1..]);
      assert forall j :: 1 <= j < |chain| ==> chain[j] == chain[1..][j - 1];
      assert DropLast(chain)[0] == chain[0] && DropLast(chain)[1..] == DropLast(chain[1..]);
      if chain[0] in acc then
        SubseqCons(rest, chain[1..], chain[0]);
        assert [chain[0]] + chain[1..] == chain;
        rest
      else
        assert ([chain[0]] + rest)[1..] == rest;
        [chain[0]] + rest
  }

  /** A closed outer way joined onto a ring it does not touch is kept whole, its repeated
      first node included. */
  lemma KeepNewClosedPiece()
    ensures KeepNew([10, 11], [1, 3, 2, 1]) == [1, 3, 2, 1]
  {
    assert [1, 3, 2, 1][1..] == [3, 2, 1] && [3, 2, 1][1..] == [2, 1] && [2, 1][1..] == [1];
  }

  /** Lines 165-177: orient the part, keep its new nodes and append them; `node_list[0]` of
      a part without nodes raises IndexError once something was gathered. */
  function Attach(acc: seq<int>, nodes: seq<int>, ref: int): (r: Result<seq<int>>)
    ensures r.Err? <==> acc != [] && nodes == []
    ensures r.Err? ==> r.error == EmptyWayPart(ref)
  {
    if acc != [] && nodes == [] then Err(EmptyWayPart(ref))
    else Ok(acc + KeepNew(acc, Oriented(acc, nodes)))
  }

  /** What one member adds: the gathered chain stays a prefix and grows by at most the
      part's length; it ends on one end of the part; every node added before that end was
      not gathered before; and a first part is taken verbatim. */
  lemma AttachSpec(acc: seq<int>, nodes: seq<int>, ref: int)
    requires acc == [] || nodes != []
    ensures var r := Attach(acc, nodes, ref).value;
      acc <= r && |r| <= |acc| + |nodes| &&
      (nodes != [] ==> Last(r) == Last(Oriented(acc, nodes)) && (Last(r) == Last(nodes) || Last(r) == nodes[0])) &&
      (forall k :: |acc| <= k < |r| - 1 ==> r[k] !in acc) &&
      (acc == [] ==> r == nodes)
  {
    var chain := Oriented(acc, nodes);
    var kept := KeepNew(acc, chain);
    SubseqLength(kept, chain);
    var r := acc + kept;
    forall k | |acc| <= k < |r| - 1 ensures r[k] !in acc {
      assert r[k] == kept[k - |acc|];
    }
    if nodes != [] && chain != nodes {
      assert Last(chain) == nodes[0];
    }
  }

  /** One outer member (lines 159-181): the first part with its id is attached and moved to
      the end of the list; a ref without a part changes nothing. */
  function OuterStep(acc: seq<int>, parts: seq<Part>, ref: int): (r: Result<(seq<int>, seq<Part>)>)
    ensures r.Err? <==> FindPart(parts, ref).Some? && acc != [] && parts[FindPart(parts, ref).value].nodes == []
  {
    match FindPart(parts, ref)
    case None => Ok((acc, parts))
    case Some(k) =>
      match Attach(acc, parts[k].nodes, ref)
      case Err(e) => Err(e)
      case Ok(grown) => Ok((grown, MoveToEnd(parts, k)))
  }

  /** A member leaves the part list a permutation of itself with the used part last, or
      leaves everything unchanged when no part has its id. */
  lemma OuterStepSpec(acc: seq<int>, parts: seq<Part>, ref: int)
    ensures var r := OuterStep(acc, parts, ref);
      (FindPart(parts, ref).None? ==> r == Ok((acc, parts))) &&
      (r.Ok? ==> acc <= r.value.0 && |r.value.1| == |parts| && multiset(r.value.1) == multiset(parts)) &&
      (r.Ok? && FindPart(parts, ref).Some? ==> Last(r.value.1) == parts[FindPart(parts, ref).value])
  {
    if FindPart(parts, ref).Some? && OuterStep(acc, parts, ref).Ok? {
      AttachSpec(acc, parts[FindPart(parts, ref).value].nodes, ref);
    }
  }

  /** The search-and-attach loop body. */
  method AttachRef(acc: seq<int>, parts: seq<Part>, ref: int) returns (r: Result<(seq<int>, seq<Part>)>)
    ensures r == OuterStep(acc, parts, ref)
  {
    var k := SearchPart(parts, ref);
    if k.None? {
      return Ok((acc, parts));
    }
    var nodeList := parts[k.value].nodes;
    if |acc| > 0 && nodeList == [] {
      return Err(EmptyWayPart(ref));    // `node_list[0]` raises IndexError
    }
    if |acc| > 0 && Last(acc) != nodeList[0] {
      nodeList := Reversed(nodeList);
    }
    nodeList := KeepNew(acc, nodeList);
    var fullNodeList := acc + nodeList;
    var item := parts[k.value];
    var waysPart := parts[..k.value] + parts[k.value + 1..];
    waysPart := waysPart + [item];
    r := Ok((fullNodeList, waysPart));
  }

  // ------------------------------------------------------------ one relation

  /** Lines 157-181: every outer member in turn, the part list carried along. */
  function StitchOuter(refs: seq<int>, acc: seq<int>, parts: seq<Part>): Result<(seq<int>, seq<Part>)>
    decreases |refs|
  {
    if refs == [] then Ok((acc, parts))
    else match OuterStep(acc, parts, refs[0])
      case Err(e) => Err(e)
      case Ok((grown, moved)) => StitchOuter(refs[1..], grown, moved)
  }

  /** The outer chain only grows, and the part list stays a permutation of itself. */
  lemma {:induction false} StitchOuterSpec(refs: seq<int>, acc: seq<int>, parts: seq<Part>)
    ensures var r := StitchOuter(refs, acc, parts);
      r.Ok? ==> acc <= r.value.0 && |r.value.1| == |parts| && multiset(r.value.1) == multiset(parts)
    decreases |refs|
  {
    if refs != [] {
      OuterStepSpec(acc, parts, refs[0]);
      var step := OuterStep(acc, parts, refs[0]);
      if step.Ok? {
        StitchOuterSpec(refs[1..], step.value.0, step.value.1);
      }
    }
  }

  method StitchOuterLoop(refs: seq<int>, parts: seq<Part>) returns (r: Result<(seq<int>, seq<Part>)>)
    ensures r == StitchOuter(refs, [], parts)
  {
    var fullNodeList: seq<int> := [];
    var waysPart := parts;
    for m := 0 to |refs|
      invariant StitchOuter(refs[m..], fullNodeList, waysPart) == StitchOuter(refs, [], parts)
    {
      assert refs[m..][1..] == refs[m + 1..];
      var step := AttachRef(fullNodeList, waysPart, refs[m]);
      if step.Err? {
        return Err(step.error);
      }
      fullNodeList, waysPart := step.value.0, step.value.1;
    }
    assert refs[|refs|..] == [];
    r := Ok((fullNodeList, waysPart));
  }

  /** One inner member (lines 185-208): the same search and attach, onto a chain that starts
      empty for every member. */
  function InnerStep(parts: seq<Part>, ref: int): (seq<int>, seq<Part>)
  {
    OuterStep([], parts, ref).value
  }

  /** Lines 183-208: one hole chain per inner member. */
  function StitchInner(refs: seq<int>, parts: seq<Part>): (r: (seq<seq<int>>, seq<Part>))
    ensures |r.0| == |refs|
    decreases |refs|
  {
    if refs == [] then ([], parts)
    else
      var (hole, moved) := InnerStep(parts, refs[0]);
      var (holes, rest) := StitchInner(refs[1..], moved);
      ([hole] + holes, rest)
  }

  /** With unique part ids, hole `m` is exactly the node list of the part named by inner
      member `m`, never turned round, or empty when there is no such part; the part list
      stays a permutation of itself. */
  lemma {:induction false} StitchInnerSpec(refs: seq<int>, parts: seq<Part>)
    requires UniqueIds(parts)
    ensures var (holes, rest) := StitchInner(refs, parts);
      UniqueIds(rest) && |rest| == |parts| && multiset(rest) == multiset(parts) &&
      forall m :: 0 <= m < |refs| ==> holes[m] == NodesWithId(parts, refs[m])
    decreases |refs|
  {
    if refs != [] {
      var ref := refs[0];
      var (hole, moved) := InnerStep(parts, ref);
      OuterStepSpec([], parts, ref);
      if FindPart(parts, ref).Some? {
        var k := FindPart(parts, ref).value;
        AttachSpec([], parts[k].nodes, ref);
        MoveToEndKeepsLookups(parts, k, ref);
      }
      StitchInnerSpec(refs[1..], moved);
      var (holes, rest) := StitchInner(refs, parts);
      forall m | 0 <= m < |refs| ensures holes[m] == NodesWithId(parts, refs[m]) {
        if m > 0 {
          assert refs[m] == refs[1..][m - 1];
          if FindPart(parts, ref).Some? {
            MoveToEndKeepsLookups(parts, FindPart(parts, ref).value, refs[m]);
          }
        }
      }
    }
  }

  method StitchInnerLoop(refs: seq<int>, parts: seq<Part>) returns (fullNodeInnerList: seq<seq<int>>, rest: seq<Part>)
    ensures (fullNodeInnerList, rest) == StitchInner(refs, parts)
  {
    fullNodeInnerList := [];
    rest := parts;
    assert refs[0..] == refs && [] + StitchInner(refs, parts).0 == StitchInner(refs, parts).0;
    for m := 0 to |refs|
      invariant var s := StitchInner(refs[m..], rest);
        (fullNodeInnerList + s.0, s.1) == StitchInner(refs, parts)
    {
      assert refs[m..][1..] == refs[m + 1..];
      var step := AttachRef([], rest, refs[m]);
      var localNodeList := step.value.0;
      assert fullNodeInnerList + ([localNodeList] + StitchInner(refs[m + 1..], step.value.1).0)
          == (fullNodeInnerList + [localNodeList]) + StitchInner(refs[m + 1..], step.value.1).0;
      rest := step.value.1;
      fullNodeInnerList := fullNodeInnerList + [localNodeList];
    }
    assert refs[|refs|..] == [];
    assert fullNodeInnerList + [] == fullNodeInnerList;
  }
}
