/** Which segment of a decoded annotation belongs to which container. */
module Alignment {
  import opened GoStrings
  import opened Kube
  import opened PodDevices

  const HYGON := "hygon.com"

  predicate RequestsHygon(c: Container) {
    exists name :: name in c.limits && Contains(name, HYGON) && c.limits[name] > 0
  }

  method ContainerRequestsHygonResource(c: Container) returns (requests: bool)
    ensures requests == RequestsHygon(c)
    ensures requests <==> exists name :: name in c.limits && Contains(name, "hygon.com") && c.limits[name] > 0
  {
    hide Contains;
    var todo := c.limits.Keys;
    while todo != {}
      invariant todo <= c.limits.Keys
      invariant forall name :: name in c.limits && name !in todo ==> !(Contains(name, HYGON) && c.limits[name] > 0)
      decreases |todo|
    {
      var name :| name in todo;
      if Contains(name, HYGON) && c.limits[name] > 0 {
        return true;
      }
      todo := todo - {name};
    }
    return false;
  }

  /** The segments that hold devices, in order. */
  function NonEmpty(pd: Layout): (r: Layout)
    ensures |r| <= |pd|
  {
    if pd == [] then []
    else
      var n := |pd| - 1;
      NonEmpty(pd[..n]) + if pd[n] != [] then [pd[n]] else []
  }

  function RequestCount(all: seq<Container>): (count: nat)
    ensures count <= |all|
  {
    if all == [] then 0
    else
      var n := |all| - 1;
      RequestCount(all[..n]) + if RequestsHygon(all[n]) then 1 else 0
  }

  lemma CountStep(all: seq<Container>, i: nat)
    requires i < |all|
    ensures RequestCount(all[..i + 1]) == RequestCount(all[..i]) + if RequestsHygon(all[i]) then 1 else 0
  {
    assert all[..i + 1][..i] == all[..i];
  }

  lemma CollectNone()
    ensures NonEmpty([]) == [] && RequestCount([]) == 0
  {
  }

  lemma CollectStep(pd: Layout, i: nat)
    requires i < |pd|
    ensures NonEmpty(pd[..i + 1]) == NonEmpty(pd[..i]) + if pd[i] != [] then [pd[i]] else []
  {
    assert pd[..i + 1][..i] == pd[..i];
  }

  /** Each requesting container gets the segment of its rank among the requesting ones. */
  function Place(segments: Layout, all: seq<Container>): (out: Layout)
    ensures |out| == |all|
  {
    seq(|all|, j requires 0 <= j < |all| =>
      if RequestsHygon(all[j]) && RequestCount(all[..j]) < |segments| then segments[RequestCount(all[..j])] else [])
  }

  function Expand(pd: Layout, all: seq<Container>): Result<Layout> {
    if all == [] then Err(NoContainers)
    else if |pd| == |all| then Ok(pd)
    else if |NonEmpty(pd)| != RequestCount(all) then Err(CannotAlign)
    else Ok(Place(NonEmpty(pd), all))
  }

  method ExpandPodDeviceSegments(pd: Layout, pod: Pod) returns (r: Result<Layout>)
    ensures r == Expand(pd, AllPodContainers(pod))
  {
    hide NonEmpty, RequestCount, RequestsHygon, AllPodContainers;
    var all := AllPodContainers(pod);
    var n := |all|;
    if n == 0 {
      return Err(NoContainers);
    }
    if |pd| == n {
      return Ok(pd);
    }

    var nonEmpty: Layout := [];
    CollectNone();
    for i := 0 to |pd|
      invariant nonEmpty == NonEmpty(pd[..i])
    {
      CollectStep(pd, i);
      if |pd[i]| > 0 {
        nonEmpty := nonEmpty + [pd[i]];
      }
    }
    assert pd[..|pd|] == pd;

    var requesting: seq<nat> := [];
    assert all[..0] == [] && pd[..0] == [];
    for i := 0 to n
      invariant |requesting| == RequestCount(all[..i])
      invariant forall k :: 0 <= k < |requesting| ==>
                  requesting[k] < i && RequestsHygon(all[requesting[k]]) && RequestCount(all[..requesting[k]]) == k
      invariant forall j :: 0 <= j < i && RequestsHygon(all[j]) ==>
                  RequestCount(all[..j]) < |requesting| && requesting[RequestCount(all[..j])] == j
    {
      CountStep(all, i);
      var requests := ContainerRequestsHygonResource(all[i]);
      if requests {
        requesting := requesting + [i];
      }
    }
    assert all[..n] == all;

    if |nonEmpty| != |requesting| {
      return Err(CannotAlign);
    }

    var out := new Segment[n](_ => []);
    for i := 0 to |requesting|
      invariant forall j :: 0 <= j < n ==>
                  out[j] == if RequestsHygon(all[j]) && RequestCount(all[..j]) < i
                            then nonEmpty[RequestCount(all[..j])] else []
    {
      out[requesting[i]] := nonEmpty[i];
    }
    assert out[..] == Place(nonEmpty, all);
    return Ok(out[..]);
  }

  // ---------------------------------------------------------------- what alignment achieves

  /** A layout as the scheduler means it: devices exactly at the containers that ask for them. */
  predicate Aligned(layout: Layout, all: seq<Container>) {
    |layout| == |all| && forall i :: 0 <= i < |all| ==> (layout[i] != [] <==> RequestsHygon(all[i]))
  }

  /** `sub` is `layout` with some of its empty segments left out. */
  predicate OmitsEmpty(sub: Layout, layout: Layout) {
    if layout == [] then sub == []
    else
      var n := |layout| - 1;
      || (sub != [] && sub[|sub| - 1] == layout[n] && OmitsEmpty(sub[..|sub| - 1], layout[..n]))
      || (layout[n] == [] && OmitsEmpty(sub, layout[..n]))
  }

  lemma {:induction false} OmittingKeepsDevices(sub: Layout, layout: Layout)
    requires OmitsEmpty(sub, layout)
    ensures NonEmpty(sub) == NonEmpty(layout) && |sub| <= |layout|
    ensures |sub| == |layout| ==> sub == layout
  {
    if layout != [] {
      var n := |layout| - 1;
      if sub != [] && sub[|sub| - 1] == layout[n] && OmitsEmpty(sub[..|sub| - 1], layout[..n]) {
        OmittingKeepsDevices(sub[..|sub| - 1], layout[..n]);
        assert sub == sub[..|sub| - 1] + [sub[|sub| - 1]] && layout == layout[..n] + [layout[n]];
      } else {
        OmittingKeepsDevices(sub, layout[..n]);
      }
    }
  }

  /** The rank of a position: how many segments before it hold devices. */
  function Rank(pd: Layout, i: nat): (r: nat)
    requires i <= |pd|
    ensures r <= i
  {
    |NonEmpty(pd[..i])|
  }

  lemma RankStep(pd: Layout, i: nat)
    requires i < |pd|
    ensures Rank(pd, i + 1) == Rank(pd, i) + if pd[i] != [] then 1 else 0
    ensures NonEmpty(pd[..i + 1]) == NonEmpty(pd[..i]) + if pd[i] != [] then [pd[i]] else []
  {
    CollectStep(pd, i);
  }

  lemma {:induction false} RankGrows(pd: Layout, i: nat, j: nat)
    requires i <= j <= |pd|
    ensures NonEmpty(pd[..i]) <= NonEmpty(pd[..j])
    ensures i < j && pd[i] != [] ==> Rank(pd, i) < Rank(pd, j) && NonEmpty(pd[..j])[Rank(pd, i)] == pd[i]
    decreases j
  {
    if i < j {
      RankStep(pd, j - 1);
      RankGrows(pd, i, j - 1);
    }
  }

  lemma {:induction false} AlignedRank(layout: Layout, all: seq<Container>, i: nat)
    requires Aligned(layout, all) && i <= |all|
    ensures Rank(layout, i) == RequestCount(all[..i])
  {
    if i > 0 {
      AlignedRank(layout, all, i - 1);
      RankStep(layout, i - 1);
      CountStep(all, i - 1);
    }
  }

  lemma PlaceReconstructs(layout: Layout, all: seq<Container>)
    requires Aligned(layout, all)
    ensures RequestCount(all) == |NonEmpty(layout)| && Place(NonEmpty(layout), all) == layout
  {
    var n := |all|;
    assert layout[..n] == layout && all[..n] == all;
    AlignedRank(layout, all, n);
    forall j | 0 <= j < n ensures Place(NonEmpty(layout), all)[j] == layout[j] {
      AlignedRank(layout, all, j);
      RankGrows(layout, j, n);
    }
  }

  /** Whatever empty segments the annotation left out, alignment puts them back. */
  lemma AlignmentReconstructs(sub: Layout, layout: Layout, all: seq<Container>)
    requires all != [] && Aligned(layout, all) && OmitsEmpty(sub, layout)
    ensures Expand(sub, all) == Ok(layout)
  {
    OmittingKeepsDevices(sub, layout);
    PlaceReconstructs(layout, all);
  }

  lemma {:induction false} CountGrows(all: seq<Container>, i: nat, j: nat)
    requires i <= j <= |all|
    ensures RequestCount(all[..i]) <= RequestCount(all[..j])
    ensures i < j && RequestsHygon(all[i]) ==> RequestCount(all[..i]) < RequestCount(all[..j])
    decreases j
  {
    if i < j {
      CountStep(all, j - 1);
      CountGrows(all, i, j - 1);
    }
  }

  lemma {:induction false} PlacedPrefix(segments: Layout, all: seq<Container>, i: nat)
    requires |segments| == RequestCount(all) && i <= |all|
    requires forall s :: s in segments ==> s != []
    ensures RequestCount(all[..i]) <= |segments|
    ensures NonEmpty(Place(segments, all)[..i]) == segments[..RequestCount(all[..i])]
  {
    hide NonEmpty, RequestCount, RequestsHygon;
    CountGrows(all, i, |all|);
    assert all[..|all|] == all;
    var out := Place(segments, all);
    if i == 0 {
      CollectNone();
      assert out[..0] == [] && all[..0] == [];
    } else {
      PlacedPrefix(segments, all, i - 1);
      CollectStep(out, i - 1);
      CountStep(all, i - 1);
      CountGrows(all, i - 1, |all|);
      var k := RequestCount(all[..i - 1]);
      if RequestsHygon(all[i - 1]) {
        assert out[i - 1] == segments[k] && segments[k] in segments;
        assert segments[..k + 1] == segments[..k] + [segments[k]];
      }
    }
  }

  lemma {:induction false} NonEmptyHoldsDevices(pd: Layout)
    ensures forall s :: s in NonEmpty(pd) ==> s != []
  {
    if pd != [] {
      NonEmptyHoldsDevices(pd[..|pd| - 1]);
    }
  }

  /**
    What every successful alignment gives: one segment per container, the same devices in the
    same order, and nothing to do a second time. It fails exactly when there is no container,
    or the length differs and the number of device segments is not the number of requests.
   */
  lemma AlignmentLaws(pd: Layout, all: seq<Container>)
    ensures Expand(pd, all).Err? <==>
            all == [] || (|pd| != |all| && |NonEmpty(pd)| != RequestCount(all))
    ensures Expand(pd, all).Err? ==> Expand(pd, all).error == if all == [] then NoContainers else CannotAlign
    ensures Expand(pd, all).Ok? ==>
              var out := Expand(pd, all).value;
              && |out| == |all|
              && NonEmpty(out) == NonEmpty(pd)
              && Expand(out, all) == Ok(out)
              && (|pd| != |all| ==> Aligned(out, all))
  {
    hide NonEmpty, RequestCount, RequestsHygon;
    if Expand(pd, all).Ok? && |pd| != |all| {
      var segments := NonEmpty(pd);
      NonEmptyHoldsDevices(pd);
      PlacedPrefix(segments, all, |all|);
      var out := Place(segments, all);
      assert out[..|all|] == out && all[..|all|] == all;
      forall i | 0 <= i < |all| ensures out[i] != [] <==> RequestsHygon(all[i]) {
        CountGrows(all, i, |all|);
        if RequestsHygon(all[i]) {
          assert segments[RequestCount(all[..i])] in segments;
        }
      }
    }
  }
}
