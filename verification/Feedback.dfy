/** The feedback filter in front of a device's LED: per key it skips the signature it last let
    through, and spaces the writes of the keys that change continuously. */
module Feedback {
  import opened Common

  /** Nanoseconds. A clock that stands still or runs backwards only makes frames too soon. */
  const MIN_GAP: nat := 100_000_000

  /** The desktop tracks (property, target), iOS tracks (device, property). */
  datatype Key =
    | PropertyTarget(property: string, target: string)
    | DeviceProperty(deviceId: string, deviceProperty: string)
  {
    /** The desktop throttles volume only, iOS everything. */
    predicate Throttled() {
      match this
      case PropertyTarget(p, _) => p == "volume"
      case DeviceProperty(_, _) => true
    }
  }

  datatype Filter = Filter(lastAt: map<Key, nat>, lastSig: map<Key, string>)

  /** A feedback plan's signature, offered to the filter at some time. */
  datatype Render = Render(at: nat, key: Key, sig: string)

  predicate TooSoon(f: Filter, r: Render) {
    r.key.Throttled() && r.key in f.lastAt && r.at - f.lastAt[r.key] < MIN_GAP
  }

  predicate Accepts(f: Filter, r: Render) {
    Lookup(f.lastSig, r.key) != Some(r.sig) && !TooSoon(f, r)
  }

  function After(f: Filter, r: Render): Filter {
    if !Accepts(f, r) then f
    else Filter(if r.key.Throttled() then f.lastAt[r.key := r.at] else f.lastAt, f.lastSig[r.key := r.sig])
  }

  // ----- The two filters -----

  class DesktopFilter {
    var lastAt: map<Key, nat>
    var lastSig: map<Key, string>

    constructor ()
      ensures State() == Filter(map[], map[])
    {
      lastAt, lastSig := map[], map[];
    }

    function State(): Filter
      reads this
    {
      Filter(lastAt, lastSig)
    }

    method ShouldRender(property: string, target: string, sig: string, now: nat) returns (ok: bool)
      modifies this
      ensures var r := Render(now, PropertyTarget(property, target), sig);
              ok == Accepts(old(State()), r) && State() == After(old(State()), r)
    {
      var key := PropertyTarget(property, target);
      if key in lastSig && lastSig[key] == sig {
        return false;
      }
      if property == "volume" {
        if key in lastAt {
          if now - lastAt[key] < MIN_GAP {
            return false;
          }
        }
        lastAt := lastAt[key := now];
      }
      lastSig := lastSig[key := sig];
      return true;
    }
  }

  class IosFilter {
    var lastAt: map<Key, nat>
    var lastSig: map<Key, string>

    constructor ()
      ensures State() == Filter(map[], map[])
    {
      lastAt, lastSig := map[], map[];
    }

    function State(): Filter
      reads this
    {
      Filter(lastAt, lastSig)
    }

    method ShouldRender(deviceId: string, property: string, sig: string, now: nat) returns (ok: bool)
      modifies this
      ensures var r := Render(now, DeviceProperty(deviceId, property), sig);
              ok == Accepts(old(State()), r) && State() == After(old(State()), r)
    {
      var key := DeviceProperty(deviceId, property);
      if key in lastSig && lastSig[key] == sig {
        return false;
      }
      if key in lastAt {
        if now - lastAt[key] < MIN_GAP {
          return false;
        }
      }
      lastAt := lastAt[key := now];
      lastSig := lastSig[key := sig];
      return true;
    }
  }

  // ----- Runs -----

  const FRESH := Filter(map[], map[])

  function RunAll(f: Filter, rs: seq<Render>): Filter {
    if rs == [] then f else After(RunAll(f, rs[..|rs| - 1]), rs[|rs| - 1])
  }

  /** The writes a key gets over a run, in order. */
  function Writes(rs: seq<Render>, k: Key): seq<Render> {
    if rs == [] then []
    else
      var init, r := rs[..|rs| - 1], rs[|rs| - 1];
      Writes(init, k) + (if r.key == k && Accepts(RunAll(FRESH, init), r) then [r] else [])
  }

  /** What the filter remembers of a key is its last write. */
  lemma {:induction false} RemembersLastWrite(rs: seq<Render>, k: Key)
    ensures var f, ws := RunAll(FRESH, rs), Writes(rs, k);
            && Lookup(f.lastSig, k) == (if ws == [] then None else Some(ws[|ws| - 1].sig))
            && (k.Throttled() ==> Lookup(f.lastAt, k) == if ws == [] then None else Some(ws[|ws| - 1].at))
    decreases |rs|
  {
    if rs == [] {
    } else {
      RemembersLastWrite(rs[..|rs| - 1], k);
    }
  }

  /** No key gets the same signature in two consecutive writes. */
  lemma {:induction false} NoRepeatedFrame(rs: seq<Render>, k: Key)
    ensures forall i :: 0 <= i < |Writes(rs, k)| - 1 ==> Writes(rs, k)[i].sig != Writes(rs, k)[i + 1].sig
    decreases |rs|
  {
    if rs == [] {
    } else {
      var init, r := rs[..|rs| - 1], rs[|rs| - 1];
      NoRepeatedFrame(init, k);
      RemembersLastWrite(init, k);
      hide Accepts, RunAll;
      if r.key == k && Accepts(RunAll(FRESH, init), r) {
        AcceptsMeans(RunAll(FRESH, init), r);
      }
    }
  }

  lemma AcceptsMeans(f: Filter, r: Render)
    requires Accepts(f, r)
    ensures Lookup(f.lastSig, r.key) != Some(r.sig)
    ensures r.key.Throttled() && r.key in f.lastAt ==> r.at >= f.lastAt[r.key] + MIN_GAP
  {
  }

  ghost predicate Spaced(ws: seq<Render>) {
    forall i :: 0 <= i < |ws| - 1 ==> ws[i].at + MIN_GAP <= ws[i + 1].at
  }

  /** The writes of a throttled key are spaced by at least the minimum gap. */
  lemma {:induction false} WritesAreSpaced(rs: seq<Render>, k: Key)
    requires k.Throttled()
    ensures Spaced(Writes(rs, k))
    decreases |rs|
  {
    if rs == [] {
    } else {
      var init, r := rs[..|rs| - 1], rs[|rs| - 1];
      WritesAreSpaced(init, k);
      RemembersLastWrite(init, k);
      hide Accepts, RunAll;
      if r.key == k && Accepts(RunAll(FRESH, init), r) {
        AcceptsMeans(RunAll(FRESH, init), r);
      }
    }
  }

  function CountIn(ws: seq<Render>, from: int, to: int): nat {
    if ws == [] then 0
    else CountIn(ws[..|ws| - 1], from, to) + (if from <= ws[|ws| - 1].at <= to then 1 else 0)
  }

  /** The last of `n` spaced writes in a window is at least `n - 1` gaps into it. */
  lemma {:induction false} LastInWindow(ws: seq<Render>, from: int, to: int)
    requires Spaced(ws)
    ensures CountIn(ws, from, to) > 0 ==>
              && from + (CountIn(ws, from, to) - 1) * MIN_GAP <= to
              && from + (CountIn(ws, from, to) - 1) * MIN_GAP <= ws[|ws| - 1].at
    decreases |ws|
  {
    if ws == [] {
    } else {
      var init := ws[..|ws| - 1];
      LastInWindow(init, from, to);
      if init != [] {
        assert ws[|ws| - 2].at + MIN_GAP <= ws[|ws| - 1].at;
      }
    }
  }

  /** The write rate: over any run, any window of length `w` holds at most w / 100 ms + 1
      writes of a volume on the desktop, and of any (device, property) on iOS. */
  lemma WriteRate(rs: seq<Render>, k: Key, from: int, w: nat)
    requires k.DeviceProperty? || k.property == "volume"
    ensures CountIn(Writes(rs, k), from, from + w) <= w / 100_000_000 + 1
  {
    WritesAreSpaced(rs, k);
    LastInWindow(Writes(rs, k), from, from + w);
  }

  /** After the writes `ws` of its key, the frame is a new one and not too soon: only volumes
      on the desktop, and everything on iOS, wait for 100 ms since the last write. */
  predicate Due(ws: seq<Render>, r: Render) {
    ws == [] ||
    var last := ws[|ws| - 1];
    && r.sig != last.sig
    && match r.key
       case PropertyTarget(property, _) => property != "volume" || r.at - last.at >= 100_000_000
       case DeviceProperty(_, _) => r.at - last.at >= 100_000_000
  }

  lemma AcceptsExactly(rs: seq<Render>, r: Render)
    ensures Accepts(RunAll(FRESH, rs), r) <==> Due(Writes(rs, r.key), r)
  {
    hide RunAll, Writes;
    RemembersLastWrite(rs, r.key);
    if r.key.Throttled() {
      assert r.key in RunAll(FRESH, rs).lastAt <==> Writes(rs, r.key) != [];
    }
  }

  /** Over every run of frames: the next one is written if and only if it is due, and no other
      key's writes are touched. What is neither a repetition nor too soon is never lost. */
  lemma WrittenExactly(rs: seq<Render>, r: Render)
    ensures Writes(rs + [r], r.key) == Writes(rs, r.key) + (if Due(Writes(rs, r.key), r) then [r] else [])
    ensures forall k :: k != r.key ==> Writes(rs + [r], k) == Writes(rs, k)
  {
    hide Accepts, Due;
    assert (rs + [r])[..|rs|] == rs;
    AcceptsExactly(rs, r);
    forall k | k != r.key ensures Writes(rs + [r], k) == Writes(rs, k) {
      assert Writes(rs, k) + [] == Writes(rs, k);
    }
  }
}
