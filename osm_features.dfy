/** The Overpass elements get_buildings and get_roads read (utils/utils_osm.py), the tag
    dictionaries they store, and the lookups that turn node ids into projected points. */
module OsmFeatures {
  import opened Common

  /** A `tags` dictionary of an element, or one the code stores. */
  type Tags = map<string, string>

  /** One entry of a relation's `members`: its `type`, `ref` and `role`. */
  datatype Member = Member(kind: string, ref: int, role: string)

  /** One element of the answer; `tags` is None when the element has no "tags" key.
      Elements of any other `type` are ignored by both loops. */
  datatype Feature =
    | Way(id: int, nodes: seq<int>, tags: Option<Tags>)
    | Relation(id: int, members: seq<Member>, tags: Option<Tags>)
    | Node(id: int, lat: real, lon: real, tags: Option<Tags>)
    | OtherElement(kind: string)

  /** A way kept aside as a piece of a relation: `{"id", "nodes"}`. */
  datatype Part = Part(id: int, nodes: seq<int>)

  /** A node kept for coordinate lookups: `{"id", "lat", "lon"}`. */
  datatype NodeRec = NodeRec(id: int, lat: real, lon: real)

  /** reproject_to_crs from degrees to the local projected system. */
  type Projection = (real, real) -> Point

  /** The numbers of ways and of relations in the answer. */
  function WayCount(fs: seq<Feature>): nat
  {
    if fs == [] then 0 else WayCount(fs[..|fs| - 1]) + if Last(fs).Way? then 1 else 0
  }

  function RelationCount(fs: seq<Feature>): nat
  {
    if fs == [] then 0 else RelationCount(fs[..|fs| - 1]) + if Last(fs).Relation? then 1 else 0
  }

  // ------------------------------------------------------------ stored tags

  /** The nested try-chains that store an element's tags: `{keyword: t[keyword], dst: t[src]}`
      for the first `(src, dst)` of `chain` whose `src` is present, `{keyword: t[keyword]}`
      when none is; None when `feature["tags"][keyword]` raises KeyError. */
  function StoredTags(tags: Option<Tags>, keyword: string, chain: seq<(string, string)>): (r: Option<Tags>)
    ensures r.None? <==> tags.None? || keyword !in tags.value
    ensures r.Some? ==> keyword in r.value
    decreases |chain|
  {
    if tags.None? || keyword !in tags.value then None
    else if chain == [] then Some(map[keyword := tags.value[keyword]])
    else if chain[0].0 in tags.value then
      Some(map[keyword := tags.value[keyword], chain[0].1 := tags.value[chain[0].0]])
    else StoredTags(tags, keyword, chain[1..])
  }

  /** The first entry of the chain whose source key is present wins. */
  lemma {:induction false} StoredTagsFirst(t: Tags, keyword: string, chain: seq<(string, string)>, i: nat)
    requires keyword in t && i < |chain| && chain[i].0 in t
    requires forall j :: 0 <= j < i ==> chain[j].0 !in t
    ensures StoredTags(Some(t), keyword, chain) == Some(map[keyword := t[keyword], chain[i].1 := t[chain[i].0]])
  {
    if i > 0 {
      assert chain[0].0 !in t;
      StoredTagsFirst(t, keyword, chain[1..], i - 1);
      assert chain[1..][i - 1] == chain[i];
    }
  }

  /** With no source key present only the keyword is stored. */
  lemma {:induction false} StoredTagsNone(t: Tags, keyword: string, chain: seq<(string, string)>)
    requires keyword in t
    requires forall j :: 0 <= j < |chain| ==> chain[j].0 !in t
    ensures StoredTags(Some(t), keyword, chain) == Some(map[keyword := t[keyword]])
  {
    if chain != [] {
      assert chain[0].0 !in t;
      StoredTagsNone(t, keyword, chain[1..]);
    }
  }

  // ------------------------------------------------------------ node lookups

  /** The first node with the given id: the inner `for n, z in enumerate(nodes)` with its `break`. */
  function FindNode(nodes: seq<NodeRec>, id: int): (r: Option<NodeRec>)
    ensures r.None? <==> forall j :: 0 <= j < |nodes| ==> nodes[j].id != id
    ensures r.Some? ==> exists j :: (0 <= j < |nodes| && nodes[j] == r.value && r.value.id == id &&
      forall j' :: 0 <= j' < j ==> nodes[j'].id != id)
  {
    if nodes == [] then None
    else if nodes[0].id == id then Some(nodes[0])
    else
      var r := FindNode(nodes[1..], id);
      assert r.Some? ==> exists j :: (0 <= j < |nodes| && nodes[j] == r.value && r.value.id == id &&
        forall j' :: 0 <= j' < j ==> nodes[j'].id != id) by {
        if r.Some? {
          var j :| 0 <= j < |nodes[1..]| && nodes[1..][j] == r.value && r.value.id == id &&
            forall j' :: 0 <= j' < j ==> nodes[1..][j'].id != id;
          assert nodes[j + 1] == r.value;
          assert forall j' :: 0 <= j' < j + 1 ==> nodes[j'].id != id by {
            forall j' | 0 <= j' < j + 1 ensures nodes[j'].id != id {
              if j' > 0 {
                assert nodes[j'] == nodes[1..][j' - 1];
              }
            }
          }
        }
      }
      r
  }

  /** The search loop itself. */
  method LookupNode(nodes: seq<NodeRec>, id: int) returns (found: Option<NodeRec>)
    ensures found == FindNode(nodes, id)
  {
    found := None;
    for n := 0 to |nodes|
      invariant forall j :: 0 <= j < n ==> nodes[j].id != id
    {
      if id == nodes[n].id {
        found := Some(nodes[n]);
        FindNodeAt(nodes, id, n);
        break;
      }
    }
  }

  lemma {:induction false} FindNodeAt(nodes: seq<NodeRec>, id: int, n: nat)
    requires n < |nodes| && nodes[n].id == id
    requires forall j :: 0 <= j < n ==> nodes[j].id != id
    ensures FindNode(nodes, id) == Some(nodes[n])
  {
    if n > 0 {
      FindNodeAt(nodes[1..], id, n - 1);
    }
  }

  /** The projected points of the ids that have a node, in the order of the ids. */
  function Resolve(ids: seq<int>, nodes: seq<NodeRec>, project: Projection): seq<Point>
  {
    if ids == [] then []
    else
      Resolve(ids[..|ids| - 1], nodes, project) +
      match FindNode(nodes, Last(ids))
      case Some(node) => [project(node.lat, node.lon)]
      case None => []
  }

  /** Resolution is a concatenation over the ids: the order of the chain is preserved. */
  lemma {:induction false} ResolveAppend(a: seq<int>, b: seq<int>, nodes: seq<NodeRec>, project: Projection)
    ensures Resolve(a + b, nodes, project) == Resolve(a, nodes, project) + Resolve(b, nodes, project)
    decreases |b|
  {
    if b != [] {
      assert (a + b)[..|a + b| - 1] == a + b[..|b| - 1];
      ResolveAppend(a, b[..|b| - 1], nodes, project);
    } else {
      assert a + b == a;
    }
  }

  /** No more points than ids; exactly one per id, the projection of its node, when every
      id has a node; and every point is the projection of the node of one of the ids. */
  lemma {:induction false} ResolveSpec(ids: seq<int>, nodes: seq<NodeRec>, project: Projection)
    ensures var r := Resolve(ids, nodes, project);
      |r| <= |ids| &&
      ((forall k :: 0 <= k < |ids| ==> FindNode(nodes, ids[k]).Some?) ==>
         |r| == |ids| &&
         forall k :: 0 <= k < |ids| ==>
           r[k] == project(FindNode(nodes, ids[k]).value.lat, FindNode(nodes, ids[k]).value.lon)) &&
      (forall p :: p in r ==> exists k, j :: (0 <= k < |ids| && 0 <= j < |nodes| &&
         nodes[j].id == ids[k] && p == project(nodes[j].lat, nodes[j].lon)))
    decreases |ids|
  {
    if ids != [] {
      var init := ids[..|ids| - 1];
      ResolveSpec(init, nodes, project);
      var r := Resolve(ids, nodes, project);
      var ri := Resolve(init, nodes, project);
      forall p | p in r ensures exists k, j :: (0 <= k < |ids| && 0 <= j < |nodes| &&
         nodes[j].id == ids[k] && p == project(nodes[j].lat, nodes[j].lon))
      {
        if p in ri {
          var k, j :| 0 <= k < |init| && 0 <= j < |nodes| && nodes[j].id == init[k] && p == project(nodes[j].lat, nodes[j].lon);
          assert ids[k] == init[k];
        } else {
          var node := FindNode(nodes, Last(ids)).value;
          var j :| 0 <= j < |nodes| && nodes[j] == node && node.id == Last(ids) && forall j' :: 0 <= j' < j ==> nodes[j'].id != Last(ids);
          assert nodes[j].id == ids[|ids| - 1];
        }
      }
    }
  }

  /** The loop over one chain of node ids (utils/utils_osm.py:277-286 and 291-300): the last
      position is skipped, since the chain closes on its first node, and ids without a node
      are dropped. */
  method ResolveChain(ids: seq<int>, nodes: seq<NodeRec>, project: Projection) returns (coords: seq<Point>)
    ensures coords == Resolve(DropLast(ids), nodes, project)
  {
    coords := [];
    ghost var open := DropLast(ids);
    for k := 0 to |ids|
      invariant coords == Resolve(open[..Min(k, |open|)], nodes, project)
    {
      if k == |ids| - 1 {
        continue;
      }
      assert open[..k + 1][..k] == open[..k] && Last(open[..k + 1]) == ids[k];
      var node := LookupNode(nodes, ids[k]);
      if node.Some? {
        coords := coords + [project(node.value.lat, node.value.lon)];
      }
    }
    assert open[..|open|] == open;
  }
}
