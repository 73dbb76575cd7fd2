/** get_roads (utils/utils_osm.py:344-480) up to the calls of split_ways_by_intersection,
    join_roads and road_buffer: which elements become roads, which tags they keep, how a
    relation is split into one way per member, and the points, closed flag and buffer width
    each way is drawn with. */
module OsmRoads {
  import opened Common
  import opened OsmFeatures
  import opened OsmStitch

  const Keyword: string := "highway"

  /** The optional key a relation keeps beside the highway value (lines 369-375 and 414-421). */
  const AreaChain: seq<(string, string)> := [("area", "area")]

  /** `{keyword: feature["tags"][keyword]}` of a way (line 362); None on the KeyError. */
  function WayTags(tags: Option<Tags>): Option<Tags>
  {
    StoredTags(tags, Keyword, [])
  }

  /** The try/except of a relation's tags (lines 369-375): the area value joins the highway
      value when there is one; None when the highway lookup raises. */
  function RelationTagsOf(tags: Option<Tags>): Option<Tags>
  {
    StoredTags(tags, Keyword, AreaChain)
  }

  /** The shape of every stored dictionary: the highway value and perhaps the area value. */
  predicate RoadForm(t: Tags)
  {
    Keyword in t && (t.Keys == {Keyword} || t.Keys == {Keyword, "area"})
  }

  /** Way tags keep only the highway value; relation tags keep the area value too when
      present; both fail when the highway value is missing. */
  lemma RoadTagsStored(t: Tags)
    ensures Keyword !in t ==> WayTags(Some(t)).None? && RelationTagsOf(Some(t)).None?
    ensures Keyword in t ==> WayTags(Some(t)) == Some(map[Keyword := t[Keyword]])
    ensures Keyword in t && "area" in t ==>
      RelationTagsOf(Some(t)) == Some(map[Keyword := t[Keyword], "area" := t["area"]])
    ensures Keyword in t && "area" !in t ==> RelationTagsOf(Some(t)) == Some(map[Keyword := t[Keyword]])
    ensures WayTags(Some(t)).Some? ==> WayTags(Some(t)).value.Keys == {Keyword}
    ensures RelationTagsOf(Some(t)).Some? ==> RoadForm(RelationTagsOf(Some(t)).value)
  {
    if Keyword in t {
      StoredTagsNone(t, Keyword, []);
      if "area" in t {
        StoredTagsFirst(t, Keyword, AreaChain, 0);
      } else {
        StoredTagsNone(t, Keyword, AreaChain);
      }
    }
  }

  /** Deriving the tags again at lines 414-421 gives a stored dictionary back unchanged. */
  lemma RederiveRoadTags(t: Tags)
    requires RoadForm(t)
    ensures RelationTagsOf(Some(t)) == Some(t)
  {
    RoadTagsStored(t);
    if "area" in t {
      assert t == map[Keyword := t[Keyword], "area" := t["area"]];
    } else {
      assert t == map[Keyword := t[Keyword]];
    }
  }

  // ------------------------------------------------------------ classification

  /** The lists the first loop (lines 357-396) fills. */
  datatype Collected = Collected(
    ways: seq<seq<int>>, tags: seq<Tags>, relRefs: seq<seq<int>>, relTags: seq<Tags>,
    parts: seq<Part>, nodes: seq<NodeRec>)

  /** A relation whose highway tag is missing: the lookup in the `except` branch raises. */
  predicate LacksHighway(f: Feature)
  {
    f.Relation? && RelationTagsOf(f.tags).None?
  }

  /** The refs of the members of type "way", whatever their role (lines 377-380). */
  function WayRefs(members: seq<Member>): (r: seq<int>)
    ensures |r| <= |members|
    ensures forall x :: x in r ==> exists m :: m in members && m.kind == "way" && m.ref == x
  {
    if members == [] then []
    else
      var m := Last(members);
      var r := WayRefs(members[..|members| - 1]) + (if m.kind == "way" then [m.ref] else []);
      assert forall m' :: m' in members[..|members| - 1] ==> m' in members;
      r
  }

  function RoadWays(fs: seq<Feature>): seq<seq<int>>
  {
    if fs == [] then []
    else
      var f := Last(fs);
      RoadWays(fs[..|fs| - 1]) + if f.Way? && WayTags(f.tags).Some? then [f.nodes] else []
  }

  function RoadWayTags(fs: seq<Feature>): seq<Tags>
  {
    if fs == [] then []
    else
      var f := Last(fs);
      RoadWayTags(fs[..|fs| - 1]) + if f.Way? && WayTags(f.tags).Some? then [WayTags(f.tags).value] else []
  }

  function RoadParts(fs: seq<Feature>): seq<Part>
  {
    if fs == [] then []
    else
      var f := Last(fs);
      RoadParts(fs[..|fs| - 1]) + if f.Way? && WayTags(f.tags).None? then [Part(f.id, f.nodes)] else []
  }

  function RelationRefs(fs: seq<Feature>): seq<seq<int>>
  {
    if fs == [] then []
    else
      var f := Last(fs);
      RelationRefs(fs[..|fs| - 1]) + if f.Relation? then [WayRefs(f.members)] else []
  }

  function RoadRelationTags(fs: seq<Feature>): seq<Tags>
  {
    if fs == [] then []
    else
      var f := Last(fs);
      RoadRelationTags(fs[..|fs| - 1]) +
      if f.Relation? && RelationTagsOf(f.tags).Some? then [RelationTagsOf(f.tags).value] else []
  }

  /** The nodes kept for coordinates: those without tags or without a highway tag (lines 383-396). */
  function RoadNodes(fs: seq<Feature>): seq<NodeRec>
  {
    if fs == [] then []
    else
      var f := Last(fs);
      RoadNodes(fs[..|fs| - 1]) +
      if f.Node? && (f.tags.None? || Keyword !in f.tags.value) then [NodeRec(f.id, f.lat, f.lon)] else []
  }

  function Classified(fs: seq<Feature>): Collected
  {
    Collected(RoadWays(fs), RoadWayTags(fs), RelationRefs(fs), RoadRelationTags(fs), RoadParts(fs), RoadNodes(fs))
  }

  /** The KeyError the first relation without a highway tag raises. */
  function ClassifyError(fs: seq<Feature>): (r: Option<Error>)
    ensures r.Some? <==> exists i :: 0 <= i < |fs| && LacksHighway(fs[i])
  {
    if fs == [] then None
    else if LacksHighway(fs[0]) then Some(MissingKey(if fs[0].tags.None? then "tags" else Keyword))
    else
      assert forall i :: 1 <= i < |fs| ==> fs[i] == fs[1..][i - 1];
      ClassifyError(fs[1..])
  }

  /** Every way lands in exactly one of `ways` and `ways_part`, `ways` and `tags` stay
      aligned, way tags hold the highway value alone, and every relation contributes one
      member list and (unless it raised) one stored dictionary. */
  lemma {:induction false} ClassifiedShape(fs: seq<Feature>)
    ensures var c := Classified(fs);
      |c.ways| == |c.tags| && |c.ways| + |c.parts| == WayCount(fs) &&
      |c.relRefs| == RelationCount(fs) &&
      (ClassifyError(fs).None? ==> |c.relTags| == RelationCount(fs)) &&
      (forall k :: 0 <= k < |c.tags| ==> c.tags[k].Keys == {Keyword}) &&
      AllRoadForm(c.relTags)
  {
    if fs != [] {
      var init := fs[..|fs| - 1];
      var f := Last(fs);
      ClassifiedShape(init);
      if ClassifyError(fs).None? {
        assert ClassifyError(init).None? by {
          forall i | 0 <= i < |init| ensures !LacksHighway(init[i]) {
            assert init[i] == fs[i];
          }
        }
        assert !LacksHighway(fs[|fs| - 1]);
      }
      if !f.OtherElement? && f.tags.Some? {
        RoadTagsStored(f.tags.value);
      }
    }
  }

  lemma {:induction false} ClassifyErrorAt(fs: seq<Feature>, i: nat)
    requires i < |fs| && LacksHighway(fs[i])
    requires forall j :: 0 <= j < i ==> !LacksHighway(fs[j])
    ensures ClassifyError(fs) == Some(MissingKey(if fs[i].tags.None? then "tags" else Keyword))
  {
    if i > 0 {
      assert forall j :: 0 <= j < i - 1 ==> fs[1..][j] == fs[j + 1];
      ClassifyErrorAt(fs[1..], i - 1);
    }
  }

  /** Lines 377-380. */
  method MemberWays(members: seq<Member>) returns (outerWays: seq<int>)
    ensures outerWays == WayRefs(members)
  {
    outerWays := [];
    for n := 0 to |members|
      invariant outerWays == WayRefs(members[..n])
    {
      assert members[..n + 1][..n] == members[..n];
      if members[n].kind == "way" {
        outerWays := outerWays + [members[n].ref];
      }
    }
    assert members[..|members|] == members;
  }

  /** The first loop (lines 357-396). */
  method CollectFeatures(features: seq<Feature>) returns (r: Result<Collected>)
    ensures r.Err? <==> ClassifyError(features).Some?
    ensures r.Err? ==> r.error == ClassifyError(features).value
    ensures r.Ok? ==> r.value == Classified(features)
  {
    var ways: seq<seq<int>> := [];
    var tags: seq<Tags> := [];
    var relOuterWays: seq<seq<int>> := [];
    var relOuterWaysTags: seq<Tags> := [];
    var waysPart: seq<Part> := [];
    var nodes: seq<NodeRec> := [];
    for i := 0 to |features|
      invariant forall j :: 0 <= j < i ==> !LacksHighway(features[j])
      invariant Collected(ways, tags, relOuterWays, relOuterWaysTags, waysPart, nodes) == Classified(features[..i])
    {
      var feature := features[i];
      assert features[..i + 1][..i] == features[..i] && Last(features[..i + 1]) == feature;
      match feature
      case Way(id, nodeIds, t) =>
        var stored := WayTags(t);
        if stored.Some? {
          tags := tags + [stored.value];
          ways := ways + [nodeIds];
        } else {
          waysPart := waysPart + [Part(id, nodeIds)];
        }
      case Relation(_, members, t) =>
        var stored := RelationTagsOf(t);
        if stored.None? {
          ClassifyErrorAt(features, i);
          return Err(MissingKey(if t.None? then "tags" else Keyword));
        }
        var outerWays := MemberWays(members);
        relOuterWays := relOuterWays + [outerWays];
        relOuterWaysTags := relOuterWaysTags + [stored.value];
      case Node(id, lat, lon, t) =>
        if t.None? || Keyword !in t.value {
          nodes := nodes + [NodeRec(id, lat, lon)];
        }
      case OtherElement(_) =>
    }
    assert features[..|features|] == features;
    r := Ok(Collected(ways, tags, relOuterWays, relOuterWaysTags, waysPart, nodes));
  }

  // ------------------------------------------------------------ relations become ways

  /** `ways_part.pop(k)`. */
  function RemoveAt(parts: seq<Part>, k: nat): (r: seq<Part>)
    requires k < |parts|
    ensures |r| == |parts| - 1
    ensures forall i :: 0 <= i < |r| ==> r[i] == if i < k then parts[i] else parts[i + 1]
    ensures multiset(r) + multiset{parts[k]} == multiset(parts)
  {
    assert parts == parts[..k] + [parts[k]] + parts[k + 1..];
    parts[..k] + parts[k + 1..]
  }

  /** One member (lines 403-411): the nodes of the first part with the member's ref, which
      is popped from the list, or nothing when there is none. */
  function TakePart(parts: seq<Part>, ref: int): (seq<int>, seq<Part>)
  {
    match FindPart(parts, ref)
    case None => ([], parts)
    case Some(k) => (parts[k].nodes, RemoveAt(parts, k))
  }

  /** A member gets the nodes its ref names, and only that part leaves the list. */
  lemma TakePartSpec(parts: seq<Part>, ref: int)
    ensures var (nodes, rest) := TakePart(parts, ref);
      nodes == NodesWithId(parts, ref) &&
      multiset(rest) <= multiset(parts) &&
      |rest| == if FindPart(parts, ref).Some? then |parts| - 1 else |parts|
  {
    var rest := TakePart(parts, ref).1;
    if FindPart(parts, ref).Some? {
      var k := FindPart(parts, ref).value;
      assert multiset(rest) + multiset{parts[k]} == multiset(parts);
    }
  }

  /** With unique ids no part with the taken ref is left, and every other lookup is unchanged. */
  lemma TakePartUnique(parts: seq<Part>, ref: int, x: int)
    requires UniqueIds(parts)
    ensures var rest := TakePart(parts, ref).1;
      UniqueIds(rest) && NodesWithId(rest, x) == if x == ref then [] else NodesWithId(parts, x)
  {
    if FindPart(parts, ref).Some? {
      var k := FindPart(parts, ref).value;
      var rest := RemoveAt(parts, k);
      assert UniqueIds(rest) by {
        forall i, j | 0 <= i < j < |rest| ensures rest[i].id != rest[j].id {
          var i' := if i < k then i else i + 1;
          var j' := if j < k then j else j + 1;
          assert rest[i] == parts[i'] && rest[j] == parts[j'];
        }
      }
      LookupAfterRemove(parts, k, x);
    }
  }

  lemma LookupAfterRemove(parts: seq<Part>, k: nat, x: int)
    requires k < |parts| && UniqueIds(parts)
    ensures NodesWithId(RemoveAt(parts, k), x) == if x == parts[k].id then [] else NodesWithId(parts, x)
  {
    if x == parts[k].id {
      RemovedIdGone(parts, k);
    } else if FindPart(parts, x).None? {
      AbsentAfterRemove(parts, k, x);
    } else {
      var p := FindPart(parts, x).value;
      FoundAfterRemove(parts, k, x, p);
      assert RemoveAt(parts, k)[if p < k then p else p - 1] == parts[p];
    }
  }

  /** With unique ids, the popped part's id is gone from the list. */
  lemma RemovedIdGone(parts: seq<Part>, k: nat)
    requires k < |parts| && UniqueIds(parts)
    ensures FindPart(RemoveAt(parts, k), parts[k].id).None?
  {
    var rest := RemoveAt(parts, k);
    forall j | 0 <= j < |rest| ensures rest[j].id != parts[k].id {
      if j < k {
        assert rest[j] == parts[j];
      } else {
        assert rest[j] == parts[j + 1];
      }
    }
  }

  /** Popping a part never makes a missing id appear ... */
  lemma AbsentAfterRemove(parts: seq<Part>, k: nat, x: int)
    requires k < |parts| && FindPart(parts, x).None?
    ensures FindPart(RemoveAt(parts, k), x).None?
  {
    var rest := RemoveAt(parts, k);
    forall j | 0 <= j < |rest| ensures rest[j].id != x {
      assert rest[j] == parts[if j < k then j else j + 1];
    }
  }

  /** ... and shifts where another id is first found by at most one place. */
  lemma FoundAfterRemove(parts: seq<Part>, k: nat, x: int, p: nat)
    requires k < |parts| && parts[k].id != x && FindPart(parts, x) == Some(p)
    ensures FindPart(RemoveAt(parts, k), x) == Some(if p < k then p else p - 1)
  {
    var rest := RemoveAt(parts, k);
    var q := if p < k then p else p - 1;
    assert rest[q] == parts[p];
    forall j | 0 <= j < q ensures rest[j].id != x {
      assert rest[j] == parts[if j < k then j else j + 1];
    }
    FindPartAt(rest, q, x);
  }

  /** One relation (lines 401-425): one way per member, in member order, each with the
      relation's tags derived again; a KeyError if the highway value were missing. */
  function SplitRelation(refs: seq<int>, t: Tags, parts: seq<Part>): Result<(seq<seq<int>>, seq<Tags>, seq<Part>)>
    decreases |refs|
  {
    if refs == [] then Ok(([], [], parts))
    else
      var (nodes, rest) := TakePart(parts, refs[0]);
      var stored := RelationTagsOf(Some(t));
      if stored.None? then Err(MissingKey(Keyword))
      else
        var tail := SplitRelation(refs[1..], t, rest);
        if tail.Err? then Err(tail.error)
        else Ok(([nodes] + tail.value.0, [stored.value] + tail.value.1, tail.value.2))
  }

  /** A relation yields exactly one way per member, all carrying its tags unchanged, and
      only takes parts out of the list. */
  lemma {:induction false} SplitRelationSpec(refs: seq<int>, t: Tags, parts: seq<Part>)
    requires RoadForm(t)
    ensures var r := SplitRelation(refs, t, parts);
      r.Ok? && |r.value.0| == |refs| && |r.value.1| == |refs| &&
      (forall k :: 0 <= k < |refs| ==> r.value.1[k] == t) &&
      multiset(r.value.2) <= multiset(parts)
    decreases |refs|
  {
    if refs != [] {
      RederiveRoadTags(t);
      TakePartSpec(parts, refs[0]);
      var rest := TakePart(parts, refs[0]).1;
      SplitRelationSpec(refs[1..], t, rest);
      var tail := SplitRelation(refs[1..], t, rest).value;
      var r := SplitRelation(refs, t, parts).value;
      assert r.1 == [t] + tail.1 && r.2 == tail.2 && |r.0| == 1 + |tail.0|;
      forall k | 0 <= k < |refs| ensures r.1[k] == t {
        if k > 0 {
          assert r.1[k] == tail.1[k - 1];
        }
      }
    }
  }

  /** With unique part ids, member `m` gets the nodes of the part its ref names, unless an
      earlier member of the same relation named that part and popped it already. */
  lemma {:induction false} SplitRelationNodes(refs: seq<int>, t: Tags, parts: seq<Part>)
    requires RoadForm(t) && UniqueIds(parts)
    ensures var r := SplitRelation(refs, t, parts);
      r.Ok? && |r.value.0| == |refs| &&
      forall m :: 0 <= m < |refs| ==>
        r.value.0[m] == if refs[m] in refs[..m] then [] else NodesWithId(parts, refs[m])
    decreases |refs|
  {
    SplitRelationSpec(refs, t, parts);
    if refs != [] {
      var (head, rest) := TakePart(parts, refs[0]);
      TakePartSpec(parts, refs[0]);
      TakePartUnique(parts, refs[0], refs[0]);
      SplitRelationNodes(refs[1..], t, rest);
      var tail := SplitRelation(refs[1..], t, rest).value.0;
      forall m | 0 <= m < |refs|
        ensures ([head] + tail)[m] == if refs[m] in refs[..m] then [] else NodesWithId(parts, refs[m])
      {
        if m > 0 {
          MemberNodesStep(refs, m, head, tail, parts, rest);
        }
      }
    }
  }

  /** Member `m > 0` of the relation, from member `m - 1` of the rest of it. */
  lemma MemberNodesStep(refs: seq<int>, m: nat, head: seq<int>, tail: seq<seq<int>>, parts: seq<Part>, rest: seq<Part>)
    requires 0 < m < |refs| && |tail| == |refs| - 1
    requires UniqueIds(parts) && rest == TakePart(parts, refs[0]).1
    requires tail[m - 1] == if refs[1..][m - 1] in refs[1..][..m - 1] then [] else NodesWithId(rest, refs[1..][m - 1])
    ensures ([head] + tail)[m] == if refs[m] in refs[..m] then [] else NodesWithId(parts, refs[m])
  {
    var r := refs[m];
    assert refs[1..][m - 1] == r;
    assert refs[..m] == [refs[0]] + refs[1..][..m - 1];
    TakePartUnique(parts, refs[0], r);
    if r != refs[0] {
      assert (r in refs[..m]) == (r in refs[1..][..m - 1]);
    }
  }

  /** The search loop with its `pop` and `break`. */
  method TakePartLoop(parts: seq<Part>, ref: int) returns (nodes: seq<int>, rest: seq<Part>)
    ensures (nodes, rest) == TakePart(parts, ref)
  {
    nodes, rest := [], parts;
    var found := SearchPart(parts, ref);
    if found.Some? {
      nodes := parts[found.value].nodes;
      rest := parts[..found.value] + parts[found.value + 1..];
    }
  }

  /** The member loop of lines 402-425. */
  method SplitRelationLoop(refs: seq<int>, t: Tags, parts: seq<Part>)
    returns (r: Result<(seq<seq<int>>, seq<Tags>, seq<Part>)>)
    ensures r == SplitRelation(refs, t, parts)
  {
    var ways: seq<seq<int>> := [];
    var tags: seq<Tags> := [];
    var waysPart := parts;
    assert refs[0..] == refs;
    PrependNothing(SplitRelation(refs, t, parts));
    for m := 0 to |refs|
      invariant Prepend(ways, tags, SplitRelation(refs[m..], t, waysPart)) == SplitRelation(refs, t, parts)
    {
      assert refs[m..][0] == refs[m] && refs[m..][1..] == refs[m + 1..];
      var fullNodeList, rest := TakePartLoop(waysPart, refs[m]);
      var stored := RelationTagsOf(Some(t));
      if stored.None? {
        return Err(MissingKey(Keyword));
      }
      PrependStep(ways, tags, fullNodeList, stored.value, SplitRelation(refs[m + 1..], t, rest));
      ways := ways + [fullNodeList];
      tags := tags + [stored.value];
      waysPart := rest;
    }
    assert refs[|refs|..] == [];
    assert ways + [] == ways && tags + [] == tags;
    r := Ok((ways, tags, waysPart));
  }

  /** The ways and tags gathered so far, followed by what the rest of the loop adds. */
  function Prepend(ways: seq<seq<int>>, tags: seq<Tags>, r: Result<(seq<seq<int>>, seq<Tags>, seq<Part>)>):
    Result<(seq<seq<int>>, seq<Tags>, seq<Part>)>
  {
    match r
    case Err(e) => Err(e)
    case Ok((more, moreTags, rest)) => Ok((ways + more, tags + moreTags, rest))
  }

  lemma PrependNothing(r: Result<(seq<seq<int>>, seq<Tags>, seq<Part>)>)
    ensures Prepend([], [], r) == r
  {
    if r.Ok? {
      assert [] + r.value.0 == r.value.0 && [] + r.value.1 == r.value.1;
    }
  }

  lemma PrependStep(ways: seq<seq<int>>, tags: seq<Tags>, w: seq<int>, t: Tags,
                    r: Result<(seq<seq<int>>, seq<Tags>, seq<Part>)>)
    ensures Prepend(ways, tags, if r.Err? then Err(r.error) else Ok(([w] + r.value.0, [t] + r.value.1, r.value.2)))
         == Prepend(ways + [w], tags + [t], r)
  {
    if r.Ok? {
      assert ways + ([w] + r.value.0) == (ways + [w]) + r.value.0;
      assert tags + ([t] + r.value.1) == (tags + [t]) + r.value.1;
    }
  }

  /** Lines 399-425: every relation in turn, sharing one part list. */
  function SplitRelations(relRefs: seq<seq<int>>, relTags: seq<Tags>, parts: seq<Part>):
    Result<(seq<seq<int>>, seq<Tags>, seq<Part>)>
    requires |relRefs| == |relTags|
    decreases |relRefs|
  {
    if relRefs == [] then Ok(([], [], parts))
    else
      var one := SplitRelation(relRefs[0], relTags[0], parts);
      if one.Err? then Err(one.error)
      else
        var tail := SplitRelations(relRefs[1..], relTags[1..], one.value.2);
        if tail.Err? then Err(tail.error)
        else Ok((one.value.0 + tail.value.0, one.value.1 + tail.value.1, tail.value.2))
  }

  /** The number of way members over all relations. */
  function MemberCount(relRefs: seq<seq<int>>): nat
  {
    if relRefs == [] then 0 else |relRefs[0]| + MemberCount(relRefs[1..])
  }

  predicate AllRoadForm(ts: seq<Tags>)
  {
    forall k :: 0 <= k < |ts| ==> RoadForm(ts[k])
  }

  lemma AllRoadFormConcat(a: seq<Tags>, b: seq<Tags>)
    requires AllRoadForm(a) && AllRoadForm(b)
    ensures AllRoadForm(a + b)
  {
    forall k | 0 <= k < |a + b| ensures RoadForm((a + b)[k]) {
      if k >= |a| {
        assert (a + b)[k] == b[k - |a|];
      }
    }
  }

  /** The relations add one way per way member, aligned with stored tags of the road shape. */
  lemma {:induction false} SplitRelationsSpec(relRefs: seq<seq<int>>, relTags: seq<Tags>, parts: seq<Part>)
    requires |relRefs| == |relTags| && AllRoadForm(relTags)
    ensures var r := SplitRelations(relRefs, relTags, parts);
      r.Ok? && |r.value.0| == |r.value.1| == MemberCount(relRefs) && AllRoadForm(r.value.1) &&
      multiset(r.value.2) <= multiset(parts)
    decreases |relRefs|
  {
    if relRefs != [] {
      assert RoadForm(relTags[0]);
      SplitRelationSpec(relRefs[0], relTags[0], parts);
      var one := SplitRelation(relRefs[0], relTags[0], parts).value;
      assert AllRoadForm(relTags[1..]) by {
        forall k | 0 <= k < |relTags[1..]| ensures RoadForm(relTags[1..][k]) {
          assert relTags[1..][k] == relTags[k + 1];
        }
      }
      SplitRelationsSpec(relRefs[1..], relTags[1..], one.2);
      var tail := SplitRelations(relRefs[1..], relTags[1..], one.2).value;
      assert AllRoadForm(one.1);
      AllRoadFormConcat(one.1, tail.1);
    }
  }

  /** Lines 399-425: the relation loop, appending to the ways and tags of the first loop. */
  method SplitRelationsLoop(c: Collected) returns (r: Result<(seq<seq<int>>, seq<Tags>)>)
    requires |c.relRefs| == |c.relTags|
    ensures r == Joined(c.ways, c.tags, SplitRelations(c.relRefs, c.relTags, c.parts))
  {
    var ways, tags, waysPart := c.ways, c.tags, c.parts;
    ghost var goal := Joined(c.ways, c.tags, SplitRelations(c.relRefs, c.relTags, c.parts));
    assert c.relRefs[0..] == c.relRefs && c.relTags[0..] == c.relTags;
    for n := 0 to |c.relRefs|
      invariant Joined(ways, tags, SplitRelations(c.relRefs[n..], c.relTags[n..], waysPart)) == goal
    {
      ghost var rr, rt := c.relRefs[n..], c.relTags[n..];
      assert rr[0] == c.relRefs[n] && rr[1..] == c.relRefs[n + 1..];
      assert rt[0] == c.relTags[n] && rt[1..] == c.relTags[n + 1..];
      var one := SplitRelationLoop(c.relRefs[n], c.relTags[n], waysPart);
      if one.Err? {
        return Err(one.error);
      }
      JoinedStep(ways, tags, one.value, SplitRelations(c.relRefs[n + 1..], c.relTags[n + 1..], one.value.2));
      ways := ways + one.value.0;
      tags := tags + one.value.1;
      waysPart := one.value.2;
    }
    assert c.relRefs[|c.relRefs|..] == [];
    assert ways + [] == ways && tags + [] == tags;
    r := Ok((ways, tags));
  }

  /** The ways and tags of the first loop followed by those the relations add. */
  function Joined(ways: seq<seq<int>>, tags: seq<Tags>, r: Result<(seq<seq<int>>, seq<Tags>, seq<Part>)>):
    Result<(seq<seq<int>>, seq<Tags>)>
  {
    match r
    case Err(e) => Err(e)
    case Ok((more, moreTags, _)) => Ok((ways + more, tags + moreTags))
  }

  lemma JoinedStep(ways: seq<seq<int>>, tags: seq<Tags>, one: (seq<seq<int>>, seq<Tags>, seq<Part>),
                   r: Result<(seq<seq<int>>, seq<Tags>, seq<Part>)>)
    ensures Joined(ways, tags, if r.Err? then Err(r.error) else Ok((one.0 + r.value.0, one.1 + r.value.1, r.value.2)))
         == Joined(ways + one.0, tags + one.1, r)
  {
    if r.Ok? {
      assert ways + (one.0 + r.value.0) == (ways + one.0) + r.value.0;
      assert tags + (one.1 + r.value.1) == (tags + one.1) + r.value.1;
    }
  }

  /** What get_roads hands to split_ways_by_intersection, with the nodes kept for lookups. */
  function RoadInputs(fs: seq<Feature>): Result<(seq<seq<int>>, seq<Tags>, seq<NodeRec>)>
  {
    if ClassifyError(fs).Some? then Err(ClassifyError(fs).value)
    else
      var c := Classified(fs);
      ClassifiedShape(fs);
      match Joined(c.ways, c.tags, SplitRelations(c.relRefs, c.relTags, c.parts))
      case Err(e) => Err(e)
      case Ok((ways, tags)) => Ok((ways, tags, c.nodes))
  }

  /** The road ways come first, in order, then one way per way member of every relation;
      every way has a stored dictionary of the road shape; only a relation without a
      highway tag makes get_roads raise. */
  lemma RoadInputsSpec(fs: seq<Feature>)
    ensures var r := RoadInputs(fs);
      (r.Err? <==> exists i :: 0 <= i < |fs| && LacksHighway(fs[i])) &&
      (r.Ok? ==>
         var (ways, tags, nodes) := r.value;
         |ways| == |tags| == |RoadWays(fs)| + MemberCount(RelationRefs(fs)) &&
         ways[..|RoadWays(fs)|] == RoadWays(fs) && nodes == RoadNodes(fs) &&
         forall k :: 0 <= k < |tags| ==> RoadForm(tags[k]))
  {
    ClassifiedShape(fs);
    var c := Classified(fs);
    if ClassifyError(fs).None? {
      SplitRelationsSpec(c.relRefs, c.relTags, c.parts);
      var (more, moreTags, _) := SplitRelations(c.relRefs, c.relTags, c.parts).value;
      assert (c.ways + more)[..|c.ways|] == c.ways;
      forall k | 0 <= k < |c.tags| + |moreTags| ensures RoadForm((c.tags + moreTags)[k]) {
        if k < |c.tags| {
          assert c.tags[k].Keys == {Keyword};
        }
      }
    }
  }

  method GetRoadInputs(features: seq<Feature>) returns (r: Result<(seq<seq<int>>, seq<Tags>, seq<NodeRec>)>)
    ensures r == RoadInputs(features)
  {
    var collected := CollectFeatures(features);
    if collected.Err? {
      return Err(collected.error);
    }
    var c := collected.value;
    ClassifiedShape(features);
    var joined := SplitRelationsLoop(c);
    if joined.Err? {
      return Err(joined.error);
    }
    r := Ok((joined.value.0, joined.value.1, c.nodes));
  }

  // ------------------------------------------------------------ one road per way

  /** The `value` road_buffer is called with (lines 444-448). */
  function BufferWidth(highway: string): (w: nat)
    ensures w == 9 <==> highway == "primary"
    ensures w == 6 <==> highway == "secondary"
    ensures w == 2 <==> highway != "primary" && highway != "secondary"
  {
    if highway == "primary" then 9 else if highway == "secondary" then 6 else 2
  }

  /** What join_roads and road_buffer are called with for one way. */
  datatype Road = Road(coords: seq<Point>, closed: bool, width: nat)

  /** Ways coming from a relation tagged `area=yes` are skipped (lines 449-454). */
  predicate IsArea(t: Tags)
  {
    "area" in t && t["area"] == "yes"
  }

  /** Lines 456-467: a way whose last node is its first is closed, and that last node is
      not resolved; otherwise every node is. */
  function RoadPoints(ids: seq<int>, nodes: seq<NodeRec>, project: Projection): (r: (seq<Point>, bool))
    ensures r.1 <==> |ids| > 0 && Last(ids) == ids[0]
  {
    var closed := |ids| > 0 && Last(ids) == ids[0];
    (Resolve(if closed then DropLast(ids) else ids, nodes, project), closed)
  }

  /** A closed way has at most one point fewer than ids; when every id it resolves has a node,
      it has exactly that many, the projections of those nodes in order. */
  lemma RoadPointsSpec(ids: seq<int>, nodes: seq<NodeRec>, project: Projection)
    ensures var (coords, closed) := RoadPoints(ids, nodes, project);
      var used := if closed then |ids| - 1 else |ids|;
      |coords| <= used &&
      ((forall k :: 0 <= k < used ==> FindNode(nodes, ids[k]).Some?) ==>
         |coords| == used &&
         forall k :: 0 <= k < used ==>
           coords[k] == project(FindNode(nodes, ids[k]).value.lat, FindNode(nodes, ids[k]).value.lon))
  {
    var closed := RoadPoints(ids, nodes, project).1;
    var chain := if closed then DropLast(ids) else ids;
    ResolveSpec(chain, nodes, project);
    assert forall k :: 0 <= k < |chain| ==> chain[k] == ids[k];
  }

  /** The node loop of lines 456-467. */
  method RoadPointsLoop(ids: seq<int>, nodes: seq<NodeRec>, project: Projection) returns (coords: seq<Point>, closed: bool)
    ensures (coords, closed) == RoadPoints(ids, nodes, project)
  {
    coords := [];
    closed := false;
    for k := 0 to |ids|
      invariant !closed
      invariant coords == Resolve(ids[..k], nodes, project)
      invariant k == |ids| && k > 0 ==> Last(ids) != ids[0]
    {
      if k == |ids| - 1 && ids[k] == ids[0] {
        closed := true;
        assert ids[..k] == DropLast(ids);
        return;
      }
      assert ids[..k + 1][..k] == ids[..k] && Last(ids[..k + 1]) == ids[k];
      var node := LookupNode(nodes, ids[k]);
      if node.Some? {
        coords := coords + [project(node.value.lat, node.value.lon)];
      }
    }
    assert ids[..|ids|] == ids;
  }

  /** One round of the way loop: the KeyError of a missing highway value, the skip of an
      area, or the road. */
  function RoadOf(ids: seq<int>, t: Tags, nodes: seq<NodeRec>, project: Projection): Result<Option<Road>>
  {
    if Keyword !in t then Err(MissingKey(Keyword))
    else if IsArea(t) then Ok(None)
    else
      var (coords, closed) := RoadPoints(ids, nodes, project);
      Ok(Some(Road(coords, closed, BufferWidth(t[Keyword]))))
  }

  /** The way loop (lines 440-480) up to join_roads and road_buffer. */
  function Roads(ways: seq<seq<int>>, tags: seq<Tags>, nodes: seq<NodeRec>, project: Projection): Result<seq<Road>>
    requires |ways| == |tags|
    decreases |ways|
  {
    if ways == [] then Ok([])
    else
      var one := RoadOf(ways[0], tags[0], nodes, project);
      if one.Err? then Err(one.error)
      else
        var tail := Roads(ways[1..], tags[1..], nodes, project);
        if tail.Err? then Err(tail.error)
        else Ok((if one.value.Some? then [one.value.value] else []) + tail.value)
  }

  /** The ways not skipped as areas. */
  function Kept(tags: seq<Tags>): nat
  {
    if tags == [] then 0 else (if IsArea(tags[0]) then 0 else 1) + Kept(tags[1..])
  }

  /** The loop raises exactly when some way lacks a highway value; otherwise it yields one
      road per way that is not an area, each with a width of 2, 6 or 9. */
  lemma {:induction false} RoadsSpec(ways: seq<seq<int>>, tags: seq<Tags>, nodes: seq<NodeRec>, project: Projection)
    requires |ways| == |tags|
    ensures var r := Roads(ways, tags, nodes, project);
      (r.Err? <==> exists i :: 0 <= i < |tags| && Keyword !in tags[i]) &&
      (r.Ok? ==> |r.value| == Kept(tags) && forall k :: 0 <= k < |r.value| ==> r.value[k].width in {2, 6, 9})
    decreases |ways|
  {
    if ways != [] {
      RoadsSpec(ways[1..], tags[1..], nodes, project);
      assert forall i :: 1 <= i < |tags| ==> tags[i] == tags[1..][i - 1];
      var r := Roads(ways, tags, nodes, project);
      if r.Ok? {
        var tail := Roads(ways[1..], tags[1..], nodes, project).value;
        var head := RoadOf(ways[0], tags[0], nodes, project).value;
        if head.Some? {
          assert r.value == [head.value] + tail;
          assert head.value.width in {2, 6, 9};
        }
      }
    }
  }

  /** The ways the loop draws, with their tags, in order: those that are not areas. */
  function KeptWays(ways: seq<seq<int>>, tags: seq<Tags>): (r: seq<(seq<int>, Tags)>)
    requires |ways| == |tags|
    ensures |r| == Kept(tags)
    ensures forall k :: 0 <= k < |r| ==> !IsArea(r[k].1)
    decreases |ways|
  {
    if ways == [] then []
    else (if IsArea(tags[0]) then [] else [(ways[0], tags[0])]) + KeptWays(ways[1..], tags[1..])
  }

  /** Each road is drawn from its own way: the k-th road holds the points and closed flag of
      the k-th way that is not an area, and the buffer width of that way's highway value. */
  lemma {:induction false} RoadsFromKeptWays(ways: seq<seq<int>>, tags: seq<Tags>, nodes: seq<NodeRec>, project: Projection)
    requires |ways| == |tags|
    ensures var r := Roads(ways, tags, nodes, project);
      r.Ok? ==>
        |r.value| == |KeptWays(ways, tags)| &&
        forall k :: 0 <= k < |r.value| ==>
          Keyword in KeptWays(ways, tags)[k].1 &&
          r.value[k] == Road(RoadPoints(KeptWays(ways, tags)[k].0, nodes, project).0,
                             RoadPoints(KeptWays(ways, tags)[k].0, nodes, project).1,
                             BufferWidth(KeptWays(ways, tags)[k].1[Keyword]))
    decreases |ways|
  {
    var r := Roads(ways, tags, nodes, project);
    if ways != [] && r.Ok? {
      RoadsFromKeptWays(ways[1..], tags[1..], nodes, project);
      var tail := Roads(ways[1..], tags[1..], nodes, project).value;
      var rest := KeptWays(ways[1..], tags[1..]);
      var head := RoadOf(ways[0], tags[0], nodes, project).value;
      if head.Some? {
        assert r.value == [head.value] + tail;
        assert KeptWays(ways, tags) == [(ways[0], tags[0])] + rest;
      } else {
        assert r.value == tail;
        assert KeptWays(ways, tags) == rest;
      }
    }
  }

  /** The way loop itself. */
  method RoadsLoop(ways: seq<seq<int>>, tags: seq<Tags>, nodes: seq<NodeRec>, project: Projection)
    returns (r: Result<seq<Road>>)
    requires |ways| == |tags|
    ensures r == Roads(ways, tags, nodes, project)
  {
    var out: seq<Road> := [];
    assert ways[0..] == ways && tags[0..] == tags;
    AfterNothing(Roads(ways, tags, nodes, project));
    for i := 0 to |ways|
      invariant After(out, Roads(ways[i..], tags[i..], nodes, project)) == Roads(ways, tags, nodes, project)
    {
      assert ways[i..][0] == ways[i] && ways[i..][1..] == ways[i + 1..];
      assert tags[i..][0] == tags[i] && tags[i..][1..] == tags[i + 1..];
      if Keyword !in tags[i] {
        return Err(MissingKey(Keyword));
      }
      var value := BufferWidth(tags[i][Keyword]);
      if IsArea(tags[i]) {
        ghost var tail := Roads(ways[i + 1..], tags[i + 1..], nodes, project);
        assert tail.Ok? ==> [] + tail.value == tail.value;
        continue;
      }
      var coords, closed := RoadPointsLoop(ways[i], nodes, project);
      AfterStep(out, Road(coords, closed, value), Roads(ways[i + 1..], tags[i + 1..], nodes, project));
      out := out + [Road(coords, closed, value)];
    }
    assert ways[|ways|..] == [];
    assert out + [] == out;
    r := Ok(out);
  }

  function After(out: seq<Road>, r: Result<seq<Road>>): Result<seq<Road>>
  {
    match r
    case Err(e) => Err(e)
    case Ok(rest) => Ok(out + rest)
  }

  lemma AfterNothing(r: Result<seq<Road>>)
    ensures After([], r) == r
  {
    if r.Ok? {
      assert [] + r.value == r.value;
    }
  }

  lemma AfterStep(out: seq<Road>, road: Road, r: Result<seq<Road>>)
    ensures After(out, if r.Err? then Err(r.error) else Ok([road] + r.value)) == After(out + [road], r)
  {
    if r.Ok? {
      assert out + ([road] + r.value) == (out + [road]) + r.value;
    }
  }
}
