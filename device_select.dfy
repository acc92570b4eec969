/** The GPU device search both compute wrappers run in their constructors
    (src/OCL_SDF.cpp:59-77, src/OCL_RayMarching.cpp:58-76). `platforms[i][j]` says whether
    device `j` of platform `i` is a GPU whose vendor query succeeds; a platform whose GPU
    query fails contributes no devices. */
module DeviceSelect {
  import opened Wrappers

  /** The first qualifying device of one platform. */
  function FirstIn(devices: seq<bool>): (r: Option<nat>)
    ensures r.Some? ==> r.value < |devices| && devices[r.value] && forall k :: 0 <= k < r.value ==> !devices[k]
    ensures r.None? <==> forall k :: 0 <= k < |devices| ==> !devices[k]
  {
    if devices == [] then None
    else if devices[0] then Some(0)
    else match FirstIn(devices[1..])
      case None => None
      case Some(j) => Some(j + 1)
  }

  /** The device the search keeps: the first qualifying device of the last platform that
      has one. */
  function SelectDevice(platforms: seq<seq<bool>>): Option<(nat, nat)>
  {
    if platforms == [] then None
    else match FirstIn(platforms[|platforms| - 1])
      case Some(j) => Some((|platforms| - 1, j))
      case None => SelectDevice(platforms[..|platforms| - 1])
  }

  /** Device `j` of platform `i` qualifies, comes first in its platform, and no later
      platform has a qualifying device. */
  ghost predicate IsLastFirst(platforms: seq<seq<bool>>, i: nat, j: nat)
  {
    i < |platforms| && j < |platforms[i]| && platforms[i][j] &&
    (forall k :: 0 <= k < j ==> !platforms[i][k]) &&
    (forall p, k :: i < p < |platforms| && 0 <= k < |platforms[p]| ==> !platforms[p][k])
  }

  /** The selected device qualifies, comes first in its platform, and no later platform has
      a qualifying device; nothing is selected exactly when no device qualifies. */
  lemma {:induction false} SelectDeviceChoice(platforms: seq<seq<bool>>)
    ensures SelectDevice(platforms).Some? ==>
      IsLastFirst(platforms, SelectDevice(platforms).value.0, SelectDevice(platforms).value.1)
    ensures SelectDevice(platforms).None? <==>
      forall i, k :: 0 <= i < |platforms| && 0 <= k < |platforms[i]| ==> !platforms[i][k]
  {
    if platforms != [] {
      var n := |platforms| - 1;
      var front := platforms[..n];
      if FirstIn(platforms[n]).None? {
        SelectDeviceChoice(front);
        forall i, k | 0 <= i < n && 0 <= k < |platforms[i]| ensures platforms[i][k] == front[i][k] {
        }
      }
    }
  }

  /** The nested search loop. `device` stays absent until a qualifying device is found and
      is overwritten by every later platform that has one; each platform's scan stops at its
      first qualifying device. */
  method FindDevice(platforms: seq<seq<bool>>) returns (device: Option<(nat, nat)>)
    ensures device == SelectDevice(platforms)
  {
    device := None;
    for i := 0 to |platforms|
      invariant device == SelectDevice(platforms[..i])
    {
      var devices := platforms[i];
      var j := 0;
      while j < |devices|
        invariant 0 <= j <= |devices|
        invariant forall k :: 0 <= k < j ==> !devices[k]
      {
        if devices[j] {
          device := Some((i, j));
          break;
        }
        j := j + 1;
      }
      assert platforms[..i + 1][..i] == platforms[..i];
      if j == |devices| {
        assert FirstIn(devices).None?;
      } else {
        FirstInIsFirst(devices, j);
      }
    }
    assert platforms[..|platforms|] == platforms;
  }

  lemma {:induction false} FirstInIsFirst(devices: seq<bool>, j: nat)
    requires j < |devices| && devices[j] && forall k :: 0 <= k < j ==> !devices[k]
    ensures FirstIn(devices) == Some(j)
    decreases j
  {
    if j > 0 {
      FirstInIsFirst(devices[1..], j - 1);
    }
  }
}
