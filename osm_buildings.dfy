/** get_buildings (utils/utils_osm.py:41-341) up to the call of extrude_building: which
    elements become buildings, which tags they keep, how relations are joined, and the
    height and points each building is extruded from. */
module OsmBuildings {
  import opened Common
  import opened UtilsOther
  import opened OsmFeatures
  import opened OsmStitch

  const Keyword: string := "building"

  /** The keys the try-chains at lines 69-93 and 107-125 read, and the key each is stored under. */
  const FeatureChain: seq<(string, string)> := [("height", "height"), ("building:levels", "levels"), ("layer", "layer")]

  /** The same chain at lines 211-235, reading back a dictionary already stored. */
  const StoredChain: seq<(string, string)> := [("height", "height"), ("levels", "levels"), ("layer", "layer")]

  /** The tags a building way or relation keeps. */
  function BuildingTags(tags: Option<Tags>): Option<Tags>
  {
    StoredTags(tags, Keyword, FeatureChain)
  }

  /** The shape of a stored dictionary: the building value and at most one of the others. */
  predicate StoredForm(t: Tags)
  {
    Keyword in t &&
    (t.Keys == {Keyword} || t.Keys == {Keyword, "height"} || t.Keys == {Keyword, "levels"} ||
     t.Keys == {Keyword, "layer"})
  }

  /** Tag precedence: height, then building:levels (stored as "levels"), then layer, then
      the building value alone; a missing building tag is a KeyError. */
  lemma BuildingTagPrecedence(t: Tags)
    ensures Keyword !in t ==> BuildingTags(Some(t)).None?
    ensures Keyword in t && "height" in t ==>
      BuildingTags(Some(t)) == Some(map[Keyword := t[Keyword], "height" := t["height"]])
    ensures Keyword in t && "height" !in t && "building:levels" in t ==>
      BuildingTags(Some(t)) == Some(map[Keyword := t[Keyword], "levels" := t["building:levels"]])
    ensures Keyword in t && "height" !in t && "building:levels" !in t && "layer" in t ==>
      BuildingTags(Some(t)) == Some(map[Keyword := t[Keyword], "layer" := t["layer"]])
    ensures Keyword in t && "height" !in t && "building:levels" !in t && "layer" !in t ==>
      BuildingTags(Some(t)) == Some(map[Keyword := t[Keyword]])
    ensures BuildingTags(Some(t)).Some? ==> StoredForm(BuildingTags(Some(t)).value)
  {
    if Keyword in t {
      if "height" in t {
        StoredTagsFirst(t, Keyword, FeatureChain, 0);
      } else if "building:levels" in t {
        StoredTagsFirst(t, Keyword, FeatureChain, 1);
      } else if "layer" in t {
        StoredTagsFirst(t, Keyword, FeatureChain, 2);
      } else {
        StoredTagsNone(t, Keyword, FeatureChain);
      }
    }
  }

  /** Reading a stored dictionary back through lines 211-235 gives it unchanged. */
  lemma RederiveStoredTags(t: Tags)
    requires StoredForm(t)
    ensures StoredTags(Some(t), Keyword, StoredChain) == Some(t)
  {
    if "height" in t {
      StoredTagsFirst(t, Keyword, StoredChain, 0);
      assert t.Keys == {Keyword, "height"};
      assert t == map[Keyword := t[Keyword], "height" := t["height"]];
    } else if "levels" in t {
      StoredTagsFirst(t, Keyword, StoredChain, 1);
      assert t.Keys == {Keyword, "levels"};
      assert t == map[Keyword := t[Keyword], "levels" := t["levels"]];
    } else if "layer" in t {
      StoredTagsFirst(t, Keyword, StoredChain, 2);
      assert t.Keys == {Keyword, "layer"};
      assert t == map[Keyword := t[Keyword], "layer" := t["layer"]];
    } else {
      StoredTagsNone(t, Keyword, StoredChain);
      assert t.Keys == {Keyword};
      assert t == map[Keyword := t[Keyword]];
    }
  }

  // ------------------------------------------------------------ classification

  /** An entry of `ways`: the outer node chain and one chain per courtyard. */
  datatype Shape = Shape(nodes: seq<int>, inner: seq<seq<int>>)

  /** The lists the first loop (lines 62-150) fills. */
  datatype Collected = Collected(
    ways: seq<Shape>, tags: seq<Tags>,
    relOuter: seq<seq<int>>, relTags: seq<Tags>, relInner: seq<seq<int>>,
    parts: seq<Part>, nodes: seq<NodeRec>)

  /** A relation whose building tag is missing: line 125 raises KeyError. */
  predicate LacksBuilding(f: Feature)
  {
    f.Relation? && BuildingTags(f.tags).None?
  }

  /** The refs of the way members with the given role, in order (lines 127-138). */
  function MemberRefs(members: seq<Member>, role: string): (r: seq<int>)
    ensures |r| <= |members|
    ensures forall x :: x in r ==> exists m :: m in members && m.kind == "way" && m.role == role && m.ref == x
  {
    if members == [] then []
    else
      var m := Last(members);
      var r := MemberRefs(members[..|members| - 1], role) + (if m.kind == "way" && m.role == role then [m.ref] else []);
      assert forall m' :: m' in members[..|members| - 1] ==> m' in members;
      r
  }

  function BuildingWays(fs: seq<Feature>): seq<Shape>
  {
    if fs == [] then []
    else
      var f := Last(fs);
      BuildingWays(fs[..|fs| - 1]) + if f.Way? && BuildingTags(f.tags).Some? then [Shape(f.nodes, [])] else []
  }

  function BuildingWayTags(fs: seq<Feature>): seq<Tags>
  {
    if fs == [] then []
    else
      var f := Last(fs);
      BuildingWayTags(fs[..|fs| - 1]) + if f.Way? && BuildingTags(f.tags).Some? then [BuildingTags(f.tags).value] else []
  }

  function LooseParts(fs: seq<Feature>): seq<Part>
  {
    if fs == [] then []
    else
      var f := Last(fs);
      LooseParts(fs[..|fs| - 1]) + if f.Way? && BuildingTags(f.tags).None? then [Part(f.id, f.nodes)] else []
  }

  function OuterRefs(fs: seq<Feature>): seq<seq<int>>
  {
    if fs == [] then []
    else
      var f := Last(fs);
      OuterRefs(fs[..|fs| - 1]) + if f.Relation? then [MemberRefs(f.members, "outer")] else []
  }

  function InnerRefs(fs: seq<Feature>): seq<seq<int>>
  {
    if fs == [] then []
    else
      var f := Last(fs);
      InnerRefs(fs[..|fs| - 1]) + if f.Relation? then [MemberRefs(f.members, "inner")] else []
  }

  function RelationTags(fs: seq<Feature>): seq<Tags>
  {
    if fs == [] then []
    else
      var f := Last(fs);
      RelationTags(fs[..|fs| - 1]) + if f.Relation? && BuildingTags(f.tags).Some? then [BuildingTags(f.tags).value] else []
  }

  /** Only nodes without tags serve as coordinates (lines 144-150). */
  function UntaggedNodes(fs: seq<Feature>): seq<NodeRec>
  {
    if fs == [] then []
    else
      var f := Last(fs);
      UntaggedNodes(fs[..|fs| - 1]) + if f.Node? && f.tags.None? then [NodeRec(f.id, f.lat, f.lon)] else []
  }

  function Classified(fs: seq<Feature>): Collected
  {
    Collected(BuildingWays(fs), BuildingWayTags(fs), OuterRefs(fs), RelationTags(fs), InnerRefs(fs),
              LooseParts(fs), UntaggedNodes(fs))
  }

  /** The KeyError the first relation without a building tag raises. */
  function ClassifyError(fs: seq<Feature>): (r: Option<Error>)
    ensures r.Some? <==> exists i :: 0 <= i < |fs| && LacksBuilding(fs[i])
  {
    if fs == [] then None
    else if LacksBuilding(fs[0]) then Some(MissingKey(if fs[0].tags.None? then "tags" else Keyword))
    else
      assert forall i :: 1 <= i < |fs| ==> fs[i] == fs[1..][i - 1];
      ClassifyError(fs[1..])
  }

  /** Every way lands in exactly one of `ways` and `ways_part`, `ways` and `tags` stay
      aligned, every relation contributes one outer list, one inner list and (unless it
      raised) one tags entry, and each stored dictionary has the stored shape. */
  lemma {:induction false} ClassifiedShape(fs: seq<Feature>)
    ensures var c := Classified(fs);
      |c.ways| == |c.tags| && |c.ways| + |c.parts| == WayCount(fs) &&
      |c.relOuter| == |c.relInner| == RelationCount(fs) &&
      (ClassifyError(fs).None? ==> |c.relTags| == RelationCount(fs)) &&
      (forall k :: 0 <= k < |c.ways| ==> c.ways[k].inner == []) &&
      (forall k :: 0 <= k < |c.tags| ==> StoredForm(c.tags[k])) &&
      (forall k :: 0 <= k < |c.relTags| ==> StoredForm(c.relTags[k]))
  {
    if fs != [] {
      var init := fs[..|fs| - 1];
      var f := Last(fs);
      ClassifiedShape(init);
      if ClassifyError(fs).None? {
        assert ClassifyError(init).None? by {
          forall i | 0 <= i < |init| ensures !LacksBuilding(init[i]) {
            assert init[i] == fs[i];
          }
        }
        assert !LacksBuilding(fs[|fs| - 1]);
      }
      if !f.OtherElement? && f.tags.Some? {
        BuildingTagPrecedence(f.tags.value);
      }
    }
  }

  /** Lines 127-138. */
  method MemberWays(members: seq<Member>) returns (outerWays: seq<int>, innerWays: seq<int>)
    ensures outerWays == MemberRefs(members, "outer") && innerWays == MemberRefs(members, "inner")
  {
    outerWays, innerWays := [], [];
    for n := 0 to |members|
      invariant outerWays == MemberRefs(members[..n], "outer") && innerWays == MemberRefs(members[..n], "inner")
    {
      assert members[..n + 1][..n] == members[..n];
      var m := members[n];
      if m.kind == "way" && m.role == "outer" {
        outerWays := outerWays + [m.ref];
      } else if m.kind == "way" && m.role == "inner" {
        innerWays := innerWays + [m.ref];
      }
    }
    assert members[..|members|] == members;
  }

  /** The first loop (lines 62-150). */
  method CollectFeatures(features: seq<Feature>) returns (r: Result<Collected>)
    ensures r.Err? <==> ClassifyError(features).Some?
    ensures r.Err? ==> r.error == ClassifyError(features).value
    ensures r.Ok? ==> r.value == Classified(features)
  {
    var ways: seq<Shape> := [];
    var tags: seq<Tags> := [];
    var relOuterWays: seq<seq<int>> := [];
    var relOuterWaysTags: seq<Tags> := [];
    var relInnerWays: seq<seq<int>> := [];
    var waysPart: seq<Part> := [];
    var nodes: seq<NodeRec> := [];
    for i := 0 to |features|
      invariant forall j :: 0 <= j < i ==> !LacksBuilding(features[j])
      invariant Collected(ways, tags, relOuterWays, relOuterWaysTags, relInnerWays, waysPart, nodes)
        == Classified(features[..i])
    {
      var feature := features[i];
      assert features[..i + 1][..i] == features[..i] && Last(features[..i + 1]) == feature;
      match feature
      case Way(id, nodeIds, t) =>
        var stored := BuildingTags(t);
        if stored.Some? {
          tags := tags + [stored.value];
          ways := ways + [Shape(nodeIds, [])];
        } else {
          waysPart := waysPart + [Part(id, nodeIds)];
        }
      case Relation(_, members, t) =>
        var stored := BuildingTags(t);
        if stored.None? {
          ClassifyErrorAt(features, i);
          return Err(MissingKey(if t.None? then "tags" else Keyword));
        }
        var outerWays, innerWays := MemberWays(members);
        relOuterWays := relOuterWays + [outerWays];
        relOuterWaysTags := relOuterWaysTags + [stored.value];
        relInnerWays := relInnerWays + [innerWays];
      case Node(id, lat, lon, t) =>
        if t.None? {
          nodes := nodes + [NodeRec(id, lat, lon)];
        }
      case OtherElement(_) =>
    }
    assert features[..|features|] == features;
    r := Ok(Collected(ways, tags, relOuterWays, relOuterWaysTags, relInnerWays, waysPart, nodes));
  }

  lemma {:induction false} ClassifyErrorAt(fs: seq<Feature>, i: nat)
    requires i < |fs| && LacksBuilding(fs[i])
    requires forall j :: 0 <= j < i ==> !LacksBuilding(fs[j])
    ensures ClassifyError(fs) == Some(MissingKey(if fs[i].tags.None? then "tags" else Keyword))
  {
    if i > 0 {
      ClassifyErrorAt(fs[1..], i - 1);
    }
  }

  // ------------------------------------------------------------ relations

  /** One relation of the loop: its outer ring, its holes, its re-derived tags (lines 211-235,
      a KeyError when the keyword is missing) and the parts left for the next relation. */
  function JoinRelation(outerRefs: seq<int>, relTags: Tags, innerRefs: seq<int>, parts: seq<Part>):
    Result<(Shape, Tags, seq<Part>)>
  {
    var outer := StitchOuter(outerRefs, [], parts);
    if outer.Err? then Err(outer.error)
    else
      var inner := StitchInner(innerRefs, outer.value.1);
      var stored := StoredTags(Some(relTags), Keyword, StoredChain);
      if stored.None? then Err(MissingKey(Keyword))
      else Ok((Shape(outer.value.0, inner.0), stored.value, inner.1))
  }

  /** Lines 153-235: every relation in turn becomes one shape and one tags entry, the part
      list carried from relation to relation. */
  function StitchRelations(relOuter: seq<seq<int>>, relTags: seq<Tags>, relInner: seq<seq<int>>,
                           parts: seq<Part>): Result<(seq<Shape>, seq<Tags>, seq<Part>)>
    requires |relOuter| == |relTags| == |relInner|
    decreases |relOuter|
  {
    if relOuter == [] then Ok(([], [], parts))
    else
      var one := JoinRelation(relOuter[0], relTags[0], relInner[0], parts);
      if one.Err? then Err(one.error)
      else
        var tail := StitchRelations(relOuter[1..], relTags[1..], relInner[1..], one.value.2);
        if tail.Err? then Err(tail.error)
        else Ok(([one.value.0] + tail.value.0, [one.value.1] + tail.value.1, tail.value.2))
  }

  /** One relation yields one hole per inner member and keeps its tags as stored, and the
      part list stays a permutation of itself. */
  lemma JoinRelationSpec(outerRefs: seq<int>, relTags: Tags, innerRefs: seq<int>, parts: seq<Part>)
    requires StoredForm(relTags)
    ensures var r := JoinRelation(outerRefs, relTags, innerRefs, parts);
      r.Ok? ==> |r.value.0.inner| == |innerRefs| && r.value.1 == relTags &&
                multiset(r.value.2) == multiset(parts)
  {
    StitchOuterSpec(outerRefs, [], parts);
    RederiveStoredTags(relTags);
    var outer := StitchOuter(outerRefs, [], parts);
    if outer.Ok? {
      StitchInnerParts(innerRefs, outer.value.1);
    }
  }

  /** One shape per relation, holding one hole per inner member, with the relation's tags
      unchanged; the part list stays a permutation of itself. */
  lemma StitchRelationsSpec(relOuter: seq<seq<int>>, relTags: seq<Tags>, relInner: seq<seq<int>>,
                            parts: seq<Part>)
    requires |relOuter| == |relTags| == |relInner|
    requires forall n :: 0 <= n < |relTags| ==> StoredForm(relTags[n])
    ensures var r := StitchRelations(relOuter, relTags, relInner, parts);
      r.Ok? ==>
        |r.value.0| == |relOuter| && r.value.1 == relTags &&
        (forall n :: 0 <= n < |relOuter| ==> |r.value.0[n].inner| == |relInner[n]|) &&
        multiset(r.value.2) == multiset(parts)
  {
    StitchRelationsTags(relOuter, relTags, relInner, parts);
    StitchRelationsHoles(relOuter, relTags, relInner, parts);
  }

  lemma {:induction false} StitchRelationsTags(relOuter: seq<seq<int>>, relTags: seq<Tags>, relInner: seq<seq<int>>,
                                              parts: seq<Part>)
    requires |relOuter| == |relTags| == |relInner|
    requires forall n :: 0 <= n < |relTags| ==> StoredForm(relTags[n])
    ensures var r := StitchRelations(relOuter, relTags, relInner, parts);
      r.Ok? ==> |r.value.0| == |relOuter| && r.value.1 == relTags && multiset(r.value.2) == multiset(parts)
    decreases |relOuter|
  {
    if relOuter != [] {
      var one := JoinRelation(relOuter[0], relTags[0], relInner[0], parts);
      JoinRelationSpec(relOuter[0], relTags[0], relInner[0], parts);
      if one.Ok? {
        StitchRelationsTags(relOuter[1..], relTags[1..], relInner[1..], one.value.2);
        var r := StitchRelations(relOuter, relTags, relInner, parts);
        if r.Ok? {
          assert r.value.1 == [relTags[0]] + relTags[1..];
        }
      }
    }
  }

  lemma {:induction false} StitchRelationsHoles(relOuter: seq<seq<int>>, relTags: seq<Tags>, relInner: seq<seq<int>>,
                                               parts: seq<Part>)
    requires |relOuter| == |relTags| == |relInner|
    ensures var r := StitchRelations(relOuter, relTags, relInner, parts);
      r.Ok? ==> |r.value.0| == |relOuter| && forall n :: 0 <= n < |relOuter| ==> |r.value.0[n].inner| == |relInner[n]|
    decreases |relOuter|
  {
    if relOuter != [] {
      var one := JoinRelation(relOuter[0], relTags[0], relInner[0], parts);
      if one.Ok? {
        StitchRelationsHoles(relOuter[1..], relTags[1..], relInner[1..], one.value.2);
        var r := StitchRelations(relOuter, relTags, relInner, parts);
        if r.Ok? {
          forall n | 0 <= n < |relOuter| ensures |r.value.0[n].inner| == |relInner[n]| {
            if n > 0 {
              assert relInner[n] == relInner[1..][n - 1];
            }
          }
        }
      }
    }
  }

  /** The inner members keep the part list a permutation of itself, whatever the ids. */
  lemma {:induction false} StitchInnerParts(refs: seq<int>, parts: seq<Part>)
    ensures multiset(StitchInner(refs, parts).1) == multiset(parts)
    decreases |refs|
  {
    if refs != [] {
      OuterStepSpec([], parts, refs[0]);
      StitchInnerParts(refs[1..], InnerStep(parts, refs[0]).1);
    }
  }

  /** The ways and tags gathered so far, followed by what the remaining relations add. */
  function AppendTo(ways: seq<Shape>, tags: seq<Tags>, r: Result<(seq<Shape>, seq<Tags>, seq<Part>)>):
    Result<(seq<Shape>, seq<Tags>)>
  {
    match r
    case Err(e) => Err(e)
    case Ok((shapes, more, _)) => Ok((ways + shapes, tags + more))
  }

  /** What the remaining relations add once the first of them is joined. */
  lemma StitchRelationsStep(ways: seq<Shape>, tags: seq<Tags>, relOuter: seq<seq<int>>, relTags: seq<Tags>,
                            relInner: seq<seq<int>>, parts: seq<Part>)
    requires 0 < |relOuter| == |relTags| == |relInner|
    ensures var one := JoinRelation(relOuter[0], relTags[0], relInner[0], parts);
      AppendTo(ways, tags, StitchRelations(relOuter, relTags, relInner, parts))
      == if one.Err? then Err(one.error)
         else AppendTo(ways + [one.value.0], tags + [one.value.1],
                       StitchRelations(relOuter[1..], relTags[1..], relInner[1..], one.value.2))
  {
    var one := JoinRelation(relOuter[0], relTags[0], relInner[0], parts);
    if one.Ok? {
      var tail := StitchRelations(relOuter[1..], relTags[1..], relInner[1..], one.value.2);
      if tail.Ok? {
        assert ways + ([one.value.0] + tail.value.0) == (ways + [one.value.0]) + tail.value.0;
        assert tags + ([one.value.1] + tail.value.1) == (tags + [one.value.1]) + tail.value.1;
      }
    }
  }

  /** The body of the relation loop: both stitching loops, then the tag re-derivation. */
  method JoinRelationLoop(outerRefs: seq<int>, relTags: Tags, innerRefs: seq<int>, parts: seq<Part>)
    returns (r: Result<(Shape, Tags, seq<Part>)>)
    ensures r == JoinRelation(outerRefs, relTags, innerRefs, parts)
  {
    var full := StitchOuterLoop(outerRefs, parts);
    if full.Err? {
      return Err(full.error);
    }
    var holes, rest := StitchInnerLoop(innerRefs, full.value.1);
    var stored := StoredTags(Some(relTags), Keyword, StoredChain);
    if stored.None? {
      return Err(MissingKey(Keyword));
    }
    r := Ok((Shape(full.value.0, holes), stored.value, rest));
  }

  /** The relation loop (lines 153-235), appending to the `ways` and `tags` of the first loop. */
  method BuildRelations(c: Collected) returns (r: Result<(seq<Shape>, seq<Tags>)>)
    requires |c.relOuter| == |c.relTags| == |c.relInner|
    ensures r == AppendTo(c.ways, c.tags, StitchRelations(c.relOuter, c.relTags, c.relInner, c.parts))
  {
    var ways, tags, waysPart := c.ways, c.tags, c.parts;
    ghost var goal := AppendTo(c.ways, c.tags, StitchRelations(c.relOuter, c.relTags, c.relInner, c.parts));
    assert c.relOuter[0..] == c.relOuter && c.relTags[0..] == c.relTags && c.relInner[0..] == c.relInner;
    for n := 0 to |c.relOuter|
      invariant AppendTo(ways, tags, StitchRelations(c.relOuter[n..], c.relTags[n..], c.relInner[n..], waysPart)) == goal
    {
      ghost var ro, rt, ri := c.relOuter[n..], c.relTags[n..], c.relInner[n..];
      assert ro[0] == c.relOuter[n] && ro[1..] == c.relOuter[n + 1..];
      assert rt[0] == c.relTags[n] && rt[1..] == c.relTags[n + 1..];
      assert ri[0] == c.relInner[n] && ri[1..] == c.relInner[n + 1..];
      StitchRelationsStep(ways, tags, ro, rt, ri, waysPart);
      var one := JoinRelationLoop(c.relOuter[n], c.relTags[n], c.relInner[n], waysPart);
      if one.Err? {
        return Err(one.error);
      }
      ways := ways + [one.value.0];
      tags := tags + [one.value.1];
      waysPart := one.value.2;
    }
    assert c.relOuter[|c.relOuter|..] == [];
    assert ways + [] == ways && tags + [] == tags;
    r := Ok((ways, tags));
  }

  // ------------------------------------------------------------ heights

  predicate IsDigit(c: char)
  {
    '0' <= c <= '9'
  }

  predicate AllDigits(s: string)
  {
    forall i :: 0 <= i < |s| ==> IsDigit(s[i])
  }

  function Decimal(s: string): nat
    requires AllDigits(s)
  {
    if s == [] then 0 else 10 * Decimal(s[..|s| - 1]) + (Last(s) as int - '0' as int)
  }

  function Pow10(e: nat): (r: nat)
    ensures r >= 1
  {
    if e == 0 then 1 else 10 * Pow10(e - 1)
  }

  /** The whitespace float() strips: the ASCII controls tab to carriage return and 0x1C-0x1F,
      the space (which never reaches it, as clean_string cuts there), and the Unicode spaces. */
  const Blanks: string :=
    "\t\n\U{0B}\U{0C}\r\U{1C}\U{1D}\U{1E}\U{1F} \U{85}\U{A0}\U{1680}" +
    "\U{2000}\U{2001}\U{2002}\U{2003}\U{2004}\U{2005}\U{2006}\U{2007}\U{2008}\U{2009}\U{200A}" +
    "\U{2028}\U{2029}\U{202F}\U{205F}\U{3000}"

  /** `str.strip()` for the blanks above. */
  function Strip(s: string): (r: string)
    ensures forall k :: 0 <= k < |r| ==> r[k] in s
    ensures s != [] && s[0] !in Blanks && Last(s) !in Blanks ==> r == s
    decreases |s|
  {
    if s != [] && s[0] in Blanks then
      var r := Strip(s[1..]);
      assert forall k :: 0 <= k < |r| ==> r[k] in s by {
        forall k | 0 <= k < |r| ensures r[k] in s {
          assert r[k] in s[1..];
        }
      }
      r
    else if s != [] && Last(s) in Blanks then
      var r := Strip(s[..|s| - 1]);
      assert forall k :: 0 <= k < |r| ==> r[k] in s by {
        forall k | 0 <= k < |r| ensures r[k] in s {
          assert r[k] in s[..|s| - 1];
        }
      }
      r
    else s
  }

  /** A leading '+' or '-': whether it is a minus, and what follows. */
  function SplitSign(s: string): (r: (bool, string))
    ensures r.0 ==> s != [] && s[0] == '-'
  {
    if s != [] && (s[0] == '+' || s[0] == '-') then (s[0] == '-', s[1..]) else (false, s)
  }

  /** Decimal digits with an optional exponent `e`/`E`, itself optionally signed. */
  function ParseUnsigned(body: string): (r: Option<real>)
    ensures r.Some? ==> r.value >= 0.0
  {
    var mantissa := PrefixAvoiding(body, "eE");
    if mantissa == [] || !AllDigits(mantissa) then None
    else if |mantissa| == |body| then Some(Decimal(mantissa) as real)
    else
      var (negExp, exponent) := SplitSign(body[|mantissa| + 1..]);
      if exponent == [] || !AllDigits(exponent) then None
      else if negExp then Some((Decimal(mantissa) as real) / (Pow10(Decimal(exponent)) as real))
      else Some((Decimal(mantissa) * Pow10(Decimal(exponent))) as real)
  }

  /** Python's float() on the strings clean_string lets through: blanks around, a sign,
      and an unsigned number. A '.' never reaches it. */
  function ParseNumber(s: string): Option<real>
  {
    var (negative, body) := SplitSign(Strip(s));
    match ParseUnsigned(body)
    case None => None
    case Some(v) => Some(if negative then -v else v)
  }

  /** A string without a minus sign never reads as a negative number. */
  lemma ParseNumberNonNegative(s: string)
    requires '-' !in s
    ensures ParseNumber(s).Some? ==> ParseNumber(s).value >= 0.0
  {
    var t := Strip(s);
    if t != [] {
      assert t[0] in s;
    }
  }

  /** A string of digits reads as its decimal value. */
  lemma ParseNumberDigits(s: string)
    requires s != [] && AllDigits(s)
    ensures ParseNumber(s) == Some(Decimal(s) as real)
  {
    DigitIsNoBlank(s[0]);
    DigitIsNoBlank(Last(s));
    assert Strip(s) == s;
    assert SplitSign(s) == (false, s);
    PrefixAvoidingDigits(s);
  }

  lemma DigitIsNoBlank(c: char)
    requires IsDigit(c)
    ensures c !in Blanks
  {
  }

  lemma {:induction false} PrefixAvoidingDigits(s: string)
    requires AllDigits(s)
    ensures PrefixAvoiding(s, "eE") == s
  {
    if s != [] {
      assert s[0] != 'e' && s[0] != 'E';
      PrefixAvoidingDigits(s[1..]);
    }
  }

  const DefaultHeight: real := 9.0

  /** `s.split(",")[0].split(";")[0]`. */
  function FirstToken(s: string): string
  {
    BeforeFirst(BeforeFirst(s, ','), ';')
  }

  /** The number a stored tag holds once its first token is cleaned, if float() accepts it. */
  function TagNumber(t: Tags, key: string): Option<real>
  {
    if key in t then ParseNumber(Cleaned(FirstToken(t[key]))) else None
  }

  /** Lines 251-273: the height, else three metres per level, else the default 9, which the
      layer test would negate for a negative layer; a cleaned string has no minus sign, so
      that never happens. */
  function ResolveHeight(t: Tags): real
  {
    var height := DefaultHeight;
    match TagNumber(t, "height")
    case Some(v) => v
    case None =>
      match TagNumber(t, "levels")
      case Some(v) => v * 3.0
      case None =>
        match TagNumber(t, "layer")
        case None => height
        case Some(v) => if v < 0.0 then -height else height
  }

  /** The height tag wins, then three metres per level, else the default: the layer never
      turns it negative. */
  lemma ResolveHeightSpec(t: Tags)
    ensures var h := ResolveHeight(t);
      (TagNumber(t, "height").Some? ==> h == TagNumber(t, "height").value) &&
      (TagNumber(t, "height").None? && TagNumber(t, "levels").Some? ==> h == 3.0 * TagNumber(t, "levels").value) &&
      (TagNumber(t, "height").None? && TagNumber(t, "levels").None? ==> h == DefaultHeight)
  {
    if "layer" in t {
      CleanedHasNoMinus(FirstToken(t["layer"]));
      ParseNumberNonNegative(Cleaned(FirstToken(t["layer"])));
    }
  }

  /** No building is extruded downwards. */
  lemma HeightNonNegative(t: Tags)
    ensures ResolveHeight(t) >= 0.0
  {
    if TagNumber(t, "height").Some? {
      CleanedHasNoMinus(FirstToken(t["height"]));
      ParseNumberNonNegative(Cleaned(FirstToken(t["height"])));
    } else if TagNumber(t, "levels").Some? {
      CleanedHasNoMinus(FirstToken(t["levels"]));
      ParseNumberNonNegative(Cleaned(FirstToken(t["levels"])));
    }
  }

  /** Only one of the keys is stored, so a height tag float() rejects leaves the default,
      whatever building:levels says. */
  lemma UnparsableHeightIsDefault(t: Tags)
    requires Keyword in t && "height" in t && ParseNumber(Cleaned(FirstToken(t["height"]))).None?
    ensures ResolveHeight(BuildingTags(Some(t)).value) == DefaultHeight
  {
    BuildingTagPrecedence(t);
    ResolveHeightSpec(BuildingTags(Some(t)).value);
  }

  /** A token without separators is taken whole. */
  lemma FirstTokenWhole(s: string)
    requires ',' !in s && ';' !in s
    ensures FirstToken(s) == s
  {
    BeforeFirstAbsent(s, ',');
    BeforeFirstAbsent(s, ';');
  }

  lemma {:induction false} BeforeFirstAbsent(s: string, c: char)
    requires c !in s
    ensures BeforeFirst(s, c) == s
  {
    if s != [] {
      BeforeFirstAbsent(s[1..], c);
    }
  }

  /** clean_string cuts a decimal height at its point: "12.5" is read as 12. */
  lemma HeightTagExample()
    ensures ResolveHeight(map[Keyword := "yes", "height" := "12.5"]) == 12.0
  {
    HeightTagNumber(map[Keyword := "yes", "height" := "12.5"]);
  }

  lemma HeightTagNumber(t: Tags)
    requires "height" in t && t["height"] == "12.5"
    ensures TagNumber(t, "height") == Some(12.0)
  {
    FirstTokenWhole("12.5");
    CleanedExamples();
    TwelveParses();
  }

  /** float() strips a vertical tab, which clean_string lets through: "\v12" is read as 12. */
  lemma PaddedHeightExample()
    ensures ResolveHeight(map[Keyword := "yes", "height" := "\U{0B}12"]) == 12.0
  {
    PaddedTagNumber(map[Keyword := "yes", "height" := "\U{0B}12"]);
  }

  lemma PaddedTagNumber(t: Tags)
    requires "height" in t && t["height"] == "\U{0B}12"
    ensures TagNumber(t, "height") == Some(12.0)
  {
    FirstTokenWhole("\U{0B}12");
    PaddedCleaned();
    StripVerticalTab();
    TwelveParses();
  }

  lemma PaddedCleaned()
    ensures Cleaned("\U{0B}12") == "\U{0B}12"
  {
    var h := "\U{0B}12";
    assert forall k :: 0 <= k < |h| ==> h[k] !in CleanSymbols;
    CleanedIdentity(h);
  }

  lemma StripVerticalTab()
    ensures Strip("\U{0B}12") == "12"
  {
    DigitIsNoBlank('1');
    DigitIsNoBlank('2');
    assert "\U{0B}12"[1..] == "12";
    assert Strip("12") == "12";
  }

  lemma TwelveParses()
    ensures ParseNumber("12") == Some(12.0)
  {
    ParseNumberDigits("12");
    assert "12"[..1] == "1";
    assert Decimal("1") == 1;
  }

  lemma LevelsExample()
    ensures ResolveHeight(map[Keyword := "yes", "levels" := "4"]) == 12.0
  {
    var t := map[Keyword := "yes", "levels" := "4"];
    assert "height" !in t;
    assert FirstToken("4") == "4";
    CleanedIdentity("4");
    ParseNumberDigits("4");
  }

  lemma NegativeLayerExample()
    ensures ResolveHeight(map[Keyword := "yes", "layer" := "-1"]) == DefaultHeight
  {
    var t := map[Keyword := "yes", "layer" := "-1"];
    assert "height" !in t && "levels" !in t;
  }

  // ------------------------------------------------------------ extrusion inputs

  /** What extrude_building is called with for one shape, and the building value of its
      tags (lines 247-329). */
  datatype Extrusion = Extrusion(coords: seq<Point>, coordsInner: seq<seq<Point>>, height: real, building: string)

  function ResolveHoles(inner: seq<seq<int>>, nodes: seq<NodeRec>, project: Projection): seq<seq<Point>>
  {
    seq(|inner|, l requires 0 <= l < |inner| => Resolve(DropLast(inner[l]), nodes, project))
  }

  /** The extrusion of one shape, its height given by `heightOf` (ResolveHeight in get_buildings). */
  function ExtrusionOf(shape: Shape, tags: Tags, nodes: seq<NodeRec>, project: Projection, heightOf: Tags -> real): Extrusion
    requires Keyword in tags
  {
    Extrusion(Resolve(DropLast(shape.nodes), nodes, project), ResolveHoles(shape.inner, nodes, project),
              heightOf(tags), tags[Keyword])
  }

  /** Lines 289-301. */
  method ResolveInner(inner: seq<seq<int>>, nodes: seq<NodeRec>, project: Projection) returns (coordsInner: seq<seq<Point>>)
    ensures coordsInner == ResolveHoles(inner, nodes, project)
  {
    coordsInner := [];
    for l := 0 to |inner|
      invariant |coordsInner| == l
      invariant forall j :: 0 <= j < l ==> coordsInner[j] == Resolve(DropLast(inner[j]), nodes, project)
    {
      var coordsPerVoid := ResolveChain(inner[l], nodes, project);
      coordsInner := coordsInner + [coordsPerVoid];
    }
  }

  /** One round of the second loop: the height, the outer ring and the holes of one shape;
      get_buildings computes the height with ResolveHeight. */
  method ResolveShape(way: Shape, tags: Tags, nodes: seq<NodeRec>, project: Projection, heightOf: Tags -> real)
    returns (e: Extrusion)
    requires Keyword in tags
    ensures e == ExtrusionOf(way, tags, nodes, project, heightOf)
  {
    var height := heightOf(tags);
    var coords := ResolveChain(way.nodes, nodes, project);
    var coordsInner := ResolveInner(way.inner, nodes, project);
    e := Extrusion(coords, coordsInner, height, tags[Keyword]);
  }

  /** The second loop (lines 247-332) up to the extrusion. */
  method ResolveShapes(ways: seq<Shape>, tags: seq<Tags>, nodes: seq<NodeRec>, project: Projection,
                       heightOf: Tags -> real) returns (out: seq<Extrusion>)
    requires |ways| == |tags| && forall i :: 0 <= i < |tags| ==> Keyword in tags[i]
    ensures out == Extrusions(ways, tags, nodes, project, heightOf)
  {
    out := [];
    for i := 0 to |ways|
      invariant |out| == i
      invariant forall j :: 0 <= j < i ==> out[j] == ExtrusionOf(ways[j], tags[j], nodes, project, heightOf)
    {
      var e := ResolveShape(ways[i], tags[i], nodes, project, heightOf);
      out := out + [e];
    }
  }

  // ------------------------------------------------------------ get_buildings

  /** One extrusion per shape, the i-th made from the i-th shape and its tags. */
  function Extrusions(ways: seq<Shape>, tags: seq<Tags>, nodes: seq<NodeRec>, project: Projection,
                      heightOf: Tags -> real): seq<Extrusion>
    requires |ways| == |tags| && forall i :: 0 <= i < |tags| ==> Keyword in tags[i]
  {
    seq(|ways|, i requires 0 <= i < |ways| => ExtrusionOf(ways[i], tags[i], nodes, project, heightOf))
  }

  /** What get_buildings extrudes: one entry per building way, then one per relation, or the
      first exception raised. */
  function Buildings(fs: seq<Feature>, project: Projection): Result<seq<Extrusion>>
  {
    if ClassifyError(fs).Some? then Err(ClassifyError(fs).value)
    else
      var c := Classified(fs);
      ClassifiedShape(fs);
      StitchRelationsSpec(c.relOuter, c.relTags, c.relInner, c.parts);
      match AppendTo(c.ways, c.tags, StitchRelations(c.relOuter, c.relTags, c.relInner, c.parts))
      case Err(e) => Err(e)
      case Ok((ways, tags)) => Ok(Extrusions(ways, tags, c.nodes, project, ResolveHeight))
  }

  /** One extrusion per building way, in order, followed by one per relation. */
  lemma BuildingsSpec(fs: seq<Feature>, project: Projection)
    ensures var r := Buildings(fs, project);
      |BuildingWayTags(fs)| == |BuildingWays(fs)| &&
      (forall i :: 0 <= i < |BuildingWayTags(fs)| ==> Keyword in BuildingWayTags(fs)[i]) &&
      (r.Ok? ==>
         |r.value| == |BuildingWays(fs)| + RelationCount(fs) &&
         forall i :: 0 <= i < |BuildingWays(fs)| ==>
           r.value[i] == ExtrusionOf(BuildingWays(fs)[i], BuildingWayTags(fs)[i], UntaggedNodes(fs), project, ResolveHeight))
  {
    ClassifiedShape(fs);
    if Buildings(fs, project).Ok? {
      var c := Classified(fs);
      StitchRelationsSpec(c.relOuter, c.relTags, c.relInner, c.parts);
      var joined := AppendTo(c.ways, c.tags, StitchRelations(c.relOuter, c.relTags, c.relInner, c.parts)).value;
    }
  }

  /** Every extrusion has a non-negative height. */
  lemma BuildingsHeights(fs: seq<Feature>, project: Projection)
    ensures var r := Buildings(fs, project);
      r.Ok? ==> forall i :: 0 <= i < |r.value| ==> r.value[i].height >= 0.0
  {
    var r := Buildings(fs, project);
    if r.Ok? {
      var c := Classified(fs);
      ClassifiedShape(fs);
      StitchRelationsSpec(c.relOuter, c.relTags, c.relInner, c.parts);
      var joined := AppendTo(c.ways, c.tags, StitchRelations(c.relOuter, c.relTags, c.relInner, c.parts)).value;
      forall i | 0 <= i < |r.value| ensures r.value[i].height >= 0.0 {
        HeightNonNegative(joined.1[i]);
      }
    }
  }

  method GetBuildings(features: seq<Feature>, project: Projection) returns (r: Result<seq<Extrusion>>)
    ensures r == Buildings(features, project)
  {
    var collected := CollectFeatures(features);
    if collected.Err? {
      return Err(collected.error);
    }
    var c := collected.value;
    ClassifiedShape(features);
    StitchRelationsSpec(c.relOuter, c.relTags, c.relInner, c.parts);
    var joined := BuildRelations(c);
    if joined.Err? {
      return Err(joined.error);
    }
    var (ways, tags) := joined.value;
    var out := ResolveShapes(ways, tags, c.nodes, project, ResolveHeight);
    r := Ok(out);
  }
}
