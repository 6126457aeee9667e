/** Signal paths "device/signal": joining, splitting at the first slash, and ownership by a device. */
module SignalPaths {
  import opened Basics

  function FirstSlash(path: string): (at: Option<nat>)
    ensures at.Some? ==> at.value < |path| && path[at.value] == '/' && forall j :: 0 <= j < at.value ==> path[j] != '/'
    ensures at.None? ==> '/' !in path
  {
    if path == "" then None
    else if path[0] == '/' then Some(0)
    else match FirstSlash(path[1..]) case None => None case Some(i) => Some(i + 1)
  }

  function Join(device: string, sig: string): string {
    device + "/" + sig
  }

  function Split(path: string): Option<(string, string)> {
    match FirstSlash(path)
    case None => None
    case Some(i) => Some((path[..i], path[i + 1..]))
  }

  /** Splitting undoes joining exactly when the device id holds no slash itself. */
  lemma SplitUndoesJoinIff(device: string, sig: string)
    ensures Split(Join(device, sig)) == Some((device, sig)) <==> '/' !in device
  {
    var path := Join(device, sig);
    assert path[|device|] == '/';
    var i := FirstSlash(path).value;
    if '/' in device {
      var j :| 0 <= j < |device| && device[j] == '/';
      assert path[j] == '/';
    } else {
      assert forall j :: 0 <= j < |device| ==> path[j] == device[j];
      assert path[..|device|] == device && path[|device| + 1..] == sig;
    }
  }

  /** The other direction holds for every path that has a slash. */
  lemma JoinUndoesSplit(path: string)
    requires Split(path).Some?
    ensures var (device, sig) := Split(path).value; Join(device, sig) == path && '/' !in device
  {
  }

  function Owner(path: string): Option<string> {
    match FirstSlash(path)
    case None => None
    case Some(i) => Some(path[..i])
  }

  predicate OwnedBy(path: string, ids: set<string>) {
    Owner(path).Some? && Owner(path).value in ids
  }

  /** Owned paths are the signal paths of slash-free device ids among the given ones. */
  lemma OwnedByIff(path: string, ids: set<string>)
    ensures OwnedBy(path, ids) <==> exists id, sig :: id in ids && '/' !in id && path == Join(id, sig)
  {
    if OwnedBy(path, ids) {
      JoinUndoesSplit(path);
    }
    if id, sig :| id in ids && '/' !in id && path == Join(id, sig) {
      SplitUndoesJoinIff(id, sig);
    }
  }

  /** The paths owned by one of the devices, in their order. */
  function OwnedPaths(paths: seq<string>, ids: set<string>): seq<string> {
    if paths == [] then []
    else
      var front, last := OwnedPaths(paths[..|paths| - 1], ids), paths[|paths| - 1];
      if OwnedBy(last, ids) then front + [last] else front
  }

  lemma {:induction false} OwnedPathsMembers(paths: seq<string>, ids: set<string>)
    ensures forall p :: p in OwnedPaths(paths, ids) <==> p in paths && OwnedBy(p, ids)
  {
    if paths != [] {
      var front := paths[..|paths| - 1];
      OwnedPathsMembers(front, ids);
      assert paths == front + [paths[|paths| - 1]];
    }
  }
}
