/** src/ai_api/services/responses_support.py: whether a model can be driven through the
    responses endpoint is kept as markers among its capabilities. */
module ResponsesSupport {
  import opened Common

  const RESPONSES := "responses"
  const RESPONSES_BLOCKED := "responses:blocked"
  const RESPONSES_TESTED := "responses:tested"
  const RESPONSES_MANUAL := "responses:manual"

  const ALL_MARKERS := [RESPONSES, RESPONSES_BLOCKED, RESPONSES_TESTED, RESPONSES_MANUAL]

  predicate IsMarker(c: string) {
    c in ALL_MARKERS
  }

  datatype State = Available | Unavailable | Unknown

  datatype Source = Tested | ByHand

  datatype Support = Support(state: State, source: Option<Source>)

  function GetSupport(caps: seq<string>): Support {
    if RESPONSES_BLOCKED in caps then Support(Unavailable, Some(ByHand))
    else if RESPONSES in caps then
      Support(
        Available,
        if RESPONSES_TESTED in caps then Some(Tested) else if RESPONSES_MANUAL in caps then Some(ByHand) else None)
    else Support(Unknown, None)
  }

  /** A block wins over all else; of an available model the test wins over the admin's
      word, and without the plain marker neither counts. */
  lemma BlockWins(caps: seq<string>)
    ensures "responses:blocked" in caps ==> GetSupport(caps) == Support(Unavailable, Some(ByHand))
    ensures "responses:blocked" !in caps && "responses" !in caps ==> GetSupport(caps) == Support(Unknown, None)
    ensures "responses:blocked" !in caps && "responses" in caps ==>
      GetSupport(caps) == Support(
        Available,
        if "responses:tested" in caps then Some(Tested) else if "responses:manual" in caps then Some(ByHand) else None)
    ensures forall c :: IsMarker(c) <==> c in ["responses", "responses:blocked", "responses:tested", "responses:manual"]
  {
  }

  predicate Distinct(caps: seq<string>) {
    forall i, j | 0 <= i < j < |caps| :: caps[i] != caps[j]
  }

  predicate NoMarker(caps: seq<string>) {
    forall c | c in caps :: !IsMarker(c)
  }

  predicate AllMarkers(caps: seq<string>) {
    forall c | c in caps :: IsMarker(c)
  }

  /** Each capability once, where it occurs first, and no marker. */
  function WithoutMarkers(caps: seq<string>): seq<string> {
    if caps == [] then []
    else
      var out, c := WithoutMarkers(caps[..|caps| - 1]), caps[|caps| - 1];
      if IsMarker(c) || c in out then out else out + [c]
  }

  method DropMarkers(caps: seq<string>) returns (out: seq<string>)
    ensures out == WithoutMarkers(caps)
  {
    out := [];
    for i := 0 to |caps|
      invariant out == WithoutMarkers(caps[..i])
    {
      assert caps[..i + 1][..i] == caps[..i];
      if IsMarker(caps[i]) || caps[i] in out {
        continue;
      }
      out := out + [caps[i]];
    }
    assert caps[..|caps|] == caps;
  }

  /** What is left are exactly the other capabilities, each once. */
  lemma {:induction false} WithoutMarkersKeepsTheRest(caps: seq<string>)
    ensures forall c :: c in WithoutMarkers(caps) <==> c in caps && !IsMarker(c)
    ensures Distinct(WithoutMarkers(caps))
  {
    if caps == [] {
    } else {
      WithoutMarkersKeepsTheRest(caps[..|caps| - 1]);
      assert caps == caps[..|caps| - 1] + [caps[|caps| - 1]];
    }
  }

  /** A capability stays where it occurs first: what follows in the list only adds to it. */
  lemma {:induction false} FirstPlaceKept(caps: seq<string>, more: seq<string>)
    ensures WithoutMarkers(caps) <= WithoutMarkers(caps + more)
  {
    if more == [] {
      assert caps + more == caps;
    } else {
      FirstPlaceKept(caps, more[..|more| - 1]);
      assert (caps + more)[..|caps + more| - 1] == caps + more[..|more| - 1];
    }
  }

  lemma {:induction false} OnlyMarkersFallOff(clean: seq<string>, markers: seq<string>)
    requires NoMarker(clean) && Distinct(clean) && AllMarkers(markers)
    ensures WithoutMarkers(clean + markers) == clean
  {
    var all := clean + markers;
    if markers != [] {
      assert all[..|all| - 1] == clean + markers[..|markers| - 1];
      OnlyMarkersFallOff(clean, markers[..|markers| - 1]);
      assert IsMarker(all[|all| - 1]);
    } else if clean != [] {
      var front := clean[..|clean| - 1];
      assert all[..|all| - 1] == front + [];
      OnlyMarkersFallOff(front, []);
      assert !IsMarker(clean[|clean| - 1]) && clean[|clean| - 1] !in front;
      assert clean == front + [clean[|clean| - 1]];
    }
  }

  /** The transitions: a test passed or failed, an admin allows or blocks. */
  datatype Marking = TestedOk | TestedFailed | ManualOn | ManualOff

  function MarkersOf(m: Marking): seq<string> {
    match m
    case TestedOk => [RESPONSES, RESPONSES_TESTED]
    case TestedFailed => []
    case ManualOn => [RESPONSES, RESPONSES_MANUAL]
    case ManualOff => [RESPONSES_BLOCKED, RESPONSES_MANUAL]
  }

  function Mark(caps: seq<string>, m: Marking): seq<string> {
    WithoutMarkers(caps) + MarkersOf(m)
  }

  lemma MarkersDiffer()
    ensures Distinct(ALL_MARKERS)
  {
    assert RESPONSES_TESTED[10] != RESPONSES_MANUAL[10];
  }

  /** After a transition the support is what it says, whatever it was before; all other
      capabilities stay. */
  lemma MarkDecides(caps: seq<string>, m: Marking)
    ensures GetSupport(Mark(caps, m)) ==
      match m
      case TestedOk => Support(Available, Some(Tested))
      case TestedFailed => Support(Unknown, None)
      case ManualOn => Support(Available, Some(ByHand))
      case ManualOff => Support(Unavailable, Some(ByHand))
    ensures forall c | !IsMarker(c) :: c in Mark(caps, m) <==> c in caps
  {
    MarkersDiffer();
    WithoutMarkersKeepsTheRest(caps);
    assert forall c :: c in Mark(caps, m) <==> c in WithoutMarkers(caps) || c in MarkersOf(m);
    assert forall c | c in ALL_MARKERS :: IsMarker(c);
    assert ALL_MARKERS[0] == RESPONSES && ALL_MARKERS[1] == RESPONSES_BLOCKED;
    assert ALL_MARKERS[2] == RESPONSES_TESTED && ALL_MARKERS[3] == RESPONSES_MANUAL;
  }

  /** A transition leaves its own markers and no other: a passed test and an admin's word
      each say who decided, and a failed test leaves none. */
  lemma MarksLeft(caps: seq<string>, m: Marking)
    ensures "responses" in Mark(caps, m) <==> m.TestedOk? || m.ManualOn?
    ensures "responses:blocked" in Mark(caps, m) <==> m.ManualOff?
    ensures "responses:tested" in Mark(caps, m) <==> m.TestedOk?
    ensures "responses:manual" in Mark(caps, m) <==> m.ManualOn? || m.ManualOff?
    ensures NoMarker(caps) && Distinct(caps) ==> caps <= Mark(caps, m)
  {
    MarkersDiffer();
    WithoutMarkersKeepsTheRest(caps);
    assert forall c :: c in Mark(caps, m) <==> c in WithoutMarkers(caps) || c in MarkersOf(m);
    assert forall c | c in ALL_MARKERS :: IsMarker(c);
    assert ALL_MARKERS[0] == RESPONSES && ALL_MARKERS[1] == RESPONSES_BLOCKED;
    assert ALL_MARKERS[2] == RESPONSES_TESTED && ALL_MARKERS[3] == RESPONSES_MANUAL;
    if NoMarker(caps) && Distinct(caps) {
      OnlyMarkersFallOff(caps, []);
      assert caps + [] == caps;
    }
  }

  function Kept(caps: seq<string>): seq<string> {
    if caps == [] then []
    else (if IsMarker(caps[0]) then [] else [caps[0]]) + Kept(caps[1..])
  }

  /** The markers among these that occur in the capabilities. */
  function Carried(markers: seq<string>, caps: seq<string>): seq<string> {
    if markers == [] then []
    else (if markers[0] in caps then [markers[0]] else []) + Carried(markers[1..], caps)
  }

  /** New capabilities take the place of the old, but the old markers stay. */
  function PreserveInto(newCaps: seq<string>, oldCaps: seq<string>): seq<string> {
    Kept(newCaps) + Carried(ALL_MARKERS, oldCaps)
  }

  lemma {:induction false} KeptMembers(caps: seq<string>)
    ensures forall c :: c in Kept(caps) <==> c in caps && !IsMarker(c)
  {
    if caps == [] {
    } else {
      KeptMembers(caps[1..]);
      assert caps == [caps[0]] + caps[1..];
    }
  }

  lemma {:induction false} NothingToDrop(caps: seq<string>)
    requires NoMarker(caps)
    ensures Kept(caps) == caps
  {
    if caps == [] {
    } else {
      assert caps == [caps[0]] + caps[1..] && !IsMarker(caps[0]);
      NothingToDrop(caps[1..]);
    }
  }

  lemma {:induction false} CarriedMembers(markers: seq<string>, caps: seq<string>)
    ensures forall c :: c in Carried(markers, caps) <==> c in markers && c in caps
  {
    if markers == [] {
    } else {
      CarriedMembers(markers[1..], caps);
      assert markers == [markers[0]] + markers[1..];
    }
  }

  lemma {:induction false} CarriedSame(markers: seq<string>, caps: seq<string>, others: seq<string>)
    requires forall c | c in markers :: c in caps <==> c in others
    ensures Carried(markers, caps) == Carried(markers, others)
  {
    if markers == [] {
    } else {
      CarriedSame(markers[1..], caps, others);
    }
  }

  /** Every marker is kept and none is added; the rest comes from the new capabilities. */
  lemma PreserveMembers(newCaps: seq<string>, oldCaps: seq<string>)
    ensures forall c :: c in PreserveInto(newCaps, oldCaps) <==> if IsMarker(c) then c in oldCaps else c in newCaps
  {
    KeptMembers(newCaps);
    CarriedMembers(ALL_MARKERS, oldCaps);
  }

  lemma SameMarkersSameSupport(caps: seq<string>, others: seq<string>)
    requires forall c | IsMarker(c) :: c in caps <==> c in others
    ensures GetSupport(caps) == GetSupport(others)
  {
    assert IsMarker(ALL_MARKERS[0]) && IsMarker(ALL_MARKERS[1]) && IsMarker(ALL_MARKERS[2]) && IsMarker(ALL_MARKERS[3]);
  }

  /** Adopting new capabilities never changes the support. */
  lemma PreserveKeepsSupport(newCaps: seq<string>, oldCaps: seq<string>)
    ensures GetSupport(PreserveInto(newCaps, oldCaps)) == GetSupport(oldCaps)
  {
    PreserveMembers(newCaps, oldCaps);
    SameMarkersSameSupport(PreserveInto(newCaps, oldCaps), oldCaps);
  }

  /** Doing it again changes nothing. */
  lemma PreserveTwice(newCaps: seq<string>, oldCaps: seq<string>)
    ensures PreserveInto(newCaps, PreserveInto(newCaps, oldCaps)) == PreserveInto(newCaps, oldCaps)
  {
    PreserveMembers(newCaps, oldCaps);
    CarriedSame(ALL_MARKERS, PreserveInto(newCaps, oldCaps), oldCaps);
  }
}
