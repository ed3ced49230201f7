/** The bidirectional watcher: one descriptor, two halves that are armed, queued, handled and removed
    separately, over a backend that may or may not keep separate read and write watches. */
module BidiWatchers {
  import opened Rearming

  datatype Dir = In | Out

  /** One direction: its backend registration and arming, its bit of `watch_flags` (`flag`), whether a
      poller has fetched its event and not yet received it, and the flags of its half of the watcher. */
  datatype Half = Half(registered: bool, armed: bool, flag: bool, fetched: bool, queued: bool,
                       active: bool, deleteme: bool, removed: bool)

  /** A watcher seen from one half (`here`); `removals` counts `watch_removed` calls. */
  datatype Pair = Pair(here: Half, there: Half, removals: nat) {
    function Swap(): Pair { Pair(there, here, removals) }
  }

  // ---------- The backend ----------

  // Without separate watches (`sep` false) an enable replaces the armed set, and a disable, a removal
  // or a delivery takes both directions. Arming an unregistered direction does nothing.

  function Arm(h: Half): Half { h.(armed := h.registered) }

  function Disarm(h: Half): Half { h.(armed := false) }

  function Unregister(h: Half): Half { h.(registered := false, armed := false) }

  function ArmToFlag(h: Half): Half { h.(armed := h.registered && h.flag) }

  function ArmBothToFlags(p: Pair): Pair { p.(here := ArmToFlag(p.here), there := ArmToFlag(p.there)) }

  // ---------- The critical sections, as the source branches ----------

  function Fetch(sep: bool, p: Pair, hereToo: bool, thereToo: bool): Pair {
    Pair(p.here.(armed := p.here.armed && sep && !hereToo, fetched := hereToo),
         p.there.(armed := p.there.armed && sep && !thereToo, fetched := thereToo), p.removals)
  }

  /** `receive_fd_event`: queue the halves with events, re-enable the other direction if need be. */
  function Receive(sep: bool, p: Pair): Pair {
    var q := Pair(ReceiveHalf(p.here), ReceiveHalf(p.there), p.removals);
    if !sep && (q.here.flag || q.there.flag) then ArmBothToFlags(q) else q
  }

  function ReceiveHalf(h: Half): Half {
    if h.fetched then h.(flag := false, fetched := false, queued := true) else h
  }

  function Begin(p: Pair): Pair {
    p.(here := p.here.(queued := false, active := true))
  }

  /** `process_primary_rearm` or `process_secondary_rearm`. */
  function RearmHere(sep: bool, p: Pair, rearm: Rearm): Pair {
    match rearm
    case REMOVE =>
      var h := p.here.(removed := true);
      if sep then p.(here := Unregister(h.(flag := false)))
      else if p.there.removed then p.(here := Unregister(h), there := Unregister(p.there))
      else if h.flag then ArmBothToFlags(p.(here := h.(flag := false)))
      else p.(here := h)
    case DISARM =>
      var h := p.here.(flag := false);
      if sep then p.(here := Disarm(h)) else ArmBothToFlags(p.(here := h))
    case REARM =>
      var h := p.here.(flag := true);
      if sep then p.(here := Arm(h)) else ArmBothToFlags(p.(here := h))
    case _ => p
  }

  /** The end of `dispatch` or `dispatch_second`, with `post_dispatch`. */
  function Finish(sep: bool, p: Pair, returned: Rearm): Pair {
    if returned == REMOVED then p
    else
      var rearm := if p.here.deleteme then REMOVE else returned;
      var q := RearmHere(sep, p.(here := p.here.(active := false)), rearm);
      if rearm == REMOVE && p.there.removed then q.(removals := q.removals + 1)
      else if rearm == REQUEUE then q.(here := q.here.(queued := true))
      else q
  }

  /** `set_in_watch_enabled` or `set_out_watch_enabled`. */
  function SetEnabled(sep: bool, p: Pair, b: bool): Pair {
    var h := if b then p.here.(flag := true) else p.here.(flag := false, queued := false);
    if !sep then ArmBothToFlags(p.(here := h)) else if b then p.(here := Arm(h)) else p.(here := Disarm(h))
  }

  /** `set_watches`: without separate watches a disabled half stays queued. */
  function SetWatches(sep: bool, p: Pair, here: bool, there: bool): Pair {
    if sep then SetEnabled(sep, SetEnabled(sep, p, here).Swap(), there).Swap()
    else ArmBothToFlags(p.(here := p.here.(flag := here), there := p.there.(flag := there)))
  }

  /** `deregister` up to its request for the attention lock. */
  function Unwatch(p: Pair): Pair {
    p.(here := Unregister(p.here), there := Unregister(p.there))
  }

  function DeleteHalf(h: Half): Half {
    if h.active then h.(deleteme := true) else h.(queued := false, removed := true)
  }

  function Deletion(p: Pair): Pair {
    var h, t := DeleteHalf(p.here), DeleteHalf(p.there);
    Pair(h, t, if h.removed && t.removed then p.removals + 1 else p.removals)
  }

  // ---------- The watcher object the source updates in place ----------

  ghost predicate ValidPair(sep: bool, p: Pair) {
    && (p.here.armed ==> p.here.registered) && (p.there.armed ==> p.there.registered)
    && (!sep ==> p.here.registered == p.there.registered)
  }

  lemma StaysValid(sep: bool, p: Pair, rearm: Rearm, b: bool)
    requires ValidPair(sep, p)
    ensures ValidPair(sep, RearmHere(sep, p, rearm)) && ValidPair(sep, SetEnabled(sep, p, b))
  {
  }

  lemma ReceiptStaysValid(sep: bool, p: Pair)
    requires ValidPair(sep, p)
    ensures ValidPair(sep, Receive(sep, p))
  {
  }

  class BidiFdWatcher {
    const separate: bool
    var inHalf: Half
    var outHalf: Half
    var watchRemovedCalls: nat

    ghost predicate Valid()
      reads this
    {
      ValidPair(separate, Abs())
    }

    ghost function Abs(): Pair
      reads this
    {
      Pair(inHalf, outHalf, watchRemovedCalls)
    }

    constructor (separate: bool, inn: bool, out: bool)
      ensures Valid() && this.separate == separate && Abs() == Fresh(separate, inn, out)
    {
      this.separate := separate;
      inHalf := Half(true, inn, inn, false, false, false, false, false);
      outHalf := Half(true, out, out, false, false, false, false, false);
      watchRemovedCalls := 0;
    }

    /** `enable_fd_watch` for one direction, over separate watches. */
    method EnableOne(d: Dir)
      requires Valid()
      modifies `inHalf, `outHalf
      ensures inHalf == if d == In then Arm(old(inHalf)) else old(inHalf)
      ensures outHalf == if d == Out then Arm(old(outHalf)) else old(outHalf)
    {
      if d == In {
        if inHalf.registered { inHalf := inHalf.(armed := true); }
      } else {
        if outHalf.registered { outHalf := outHalf.(armed := true); }
      }
    }

    /** `enable_fd_watch` with the whole `watch_flags`, over a combined watch: it replaces the mask. */
    method EnableBoth()
      requires Valid() && !separate
      modifies `inHalf, `outHalf
      ensures inHalf == ArmToFlag(old(inHalf)) && outHalf == ArmToFlag(old(outHalf))
    {
      if inHalf.registered {
        inHalf := inHalf.(armed := inHalf.flag);
        outHalf := outHalf.(armed := outHalf.flag);
      }
    }

    method DisableFdWatch(inn: bool, out: bool)
      modifies `inHalf, `outHalf
      ensures inHalf == if separate && !inn then old(inHalf) else Disarm(old(inHalf))
      ensures outHalf == if separate && !out then old(outHalf) else Disarm(old(outHalf))
    {
      if inn || !separate { inHalf := inHalf.(armed := false); }
      if out || !separate { outHalf := outHalf.(armed := false); }
    }

    method RemoveFdWatch(inn: bool, out: bool)
      modifies `inHalf, `outHalf
      ensures inHalf == if separate && !inn then old(inHalf) else Unregister(old(inHalf))
      ensures outHalf == if separate && !out then old(outHalf) else Unregister(old(outHalf))
    {
      if inn || !separate { inHalf := inHalf.(registered := false, armed := false); }
      if out || !separate { outHalf := outHalf.(registered := false, armed := false); }
    }

    /** `set_fd_enabled` with the whole `watch_flags`, over a combined watch. */
    method SetBothEnabled(enabled: bool)
      requires Valid() && !separate && (enabled || (!inHalf.flag && !outHalf.flag))
      modifies `inHalf, `outHalf
      ensures Valid() && Abs() == ArmBothToFlags(old(Abs()))
    {
      if enabled {
        EnableBoth();
      } else {
        DisableFdWatch(false, false);
      }
    }

    /** `receive_fd_event` for the events a poller fetched. */
    method ReceiveFdEvent(inn: bool, out: bool)
      requires Valid() && inn == inHalf.fetched && out == outHalf.fetched
      modifies `inHalf, `outHalf
      ensures Valid() && Abs() == Receive(separate, old(Abs()))
    {
      ReceiptStaysValid(separate, Abs());
      if inn { inHalf := inHalf.(flag := false, fetched := false, queued := true); }
      assert inHalf == ReceiveHalf(old(inHalf));
      if out { outHalf := outHalf.(flag := false, fetched := false, queued := true); }
      assert outHalf == ReceiveHalf(old(outHalf));
      if !separate && (inHalf.flag || outHalf.flag) {
        SetBothEnabled(true);
      }
    }

    /** REMOVE in `process_primary_rearm`: the watch goes when both halves are removed. */
    method RemovePrimary() returns (result: Rearm)
      requires Valid()
      modifies `inHalf, `outHalf
      ensures Valid() && Abs() == RearmHere(separate, old(Abs()), REMOVE)
      ensures result == if outHalf.removed then REMOVE else NOOP
    {
      StaysValid(separate, Abs(), REMOVE, true);
      inHalf := inHalf.(removed := true);
      if separate {
        inHalf := inHalf.(flag := false);
        RemoveFdWatch(true, false);
        return if outHalf.removed then REMOVE else NOOP;
      } else if !outHalf.removed {
        if inHalf.flag {
          inHalf := inHalf.(flag := false);
          SetBothEnabled(true);
        }
        return NOOP;
      } else {
        RemoveFdWatch(false, false);
        return REMOVE;
      }
    }

    method ProcessPrimaryRearm(rearmType: Rearm) returns (result: Rearm)
      requires Valid()
      modifies `inHalf, `outHalf
      ensures Valid() && Abs() == RearmHere(separate, old(Abs()), rearmType)
      ensures result == if rearmType == REMOVE && !outHalf.removed then NOOP else rearmType
      ensures rearmType != REMOVE && rearmType != DISARM && rearmType != REARM ==> Abs() == old(Abs())
    {
      result := rearmType;
      if rearmType == REMOVE {
        result := RemovePrimary();
      } else if rearmType == DISARM {
        inHalf := inHalf.(flag := false);
        if !separate {
          SetBothEnabled(inHalf.flag || outHalf.flag);
        } else {
          DisableFdWatch(true, false);
        }
      } else if rearmType == REARM {
        inHalf := inHalf.(flag := true);
        if !separate {
          SetBothEnabled(true);
        } else {
          EnableOne(In);
        }
      }
    }

    /** REMOVE in `process_secondary_rearm`: the watch goes when both halves are removed. */
    method RemoveSecondary() returns (result: Rearm)
      requires Valid()
      modifies `inHalf, `outHalf
      ensures Valid() && Abs().Swap() == RearmHere(separate, old(Abs()).Swap(), REMOVE)
      ensures result == if inHalf.removed then REMOVE else NOOP
    {
      StaysValid(separate, Abs().Swap(), REMOVE, true);
      outHalf := outHalf.(removed := true);
      if separate {
        outHalf := outHalf.(flag := false);
        RemoveFdWatch(false, true);
        return if inHalf.removed then REMOVE else NOOP;
      } else if !inHalf.removed {
        if outHalf.flag {
          outHalf := outHalf.(flag := false);
          SetBothEnabled(true);
        }
        return NOOP;
      } else {
        RemoveFdWatch(false, false);
        return REMOVE;
      }
    }

    method ProcessSecondaryRearm(rearmType: Rearm) returns (result: Rearm)
      requires Valid()
      modifies `inHalf, `outHalf
      ensures Valid() && Abs().Swap() == RearmHere(separate, old(Abs()).Swap(), rearmType)
      ensures result == if rearmType == REMOVE && !inHalf.removed then NOOP else rearmType
      ensures rearmType != REMOVE && rearmType != DISARM && rearmType != REARM ==> Abs() == old(Abs())
    {
      result := rearmType;
      if rearmType == REMOVE {
        result := RemoveSecondary();
      } else if rearmType == DISARM {
        outHalf := outHalf.(flag := false);
        if !separate {
          SetBothEnabled(true);
        } else {
          DisableFdWatch(false, true);
        }
      } else if rearmType == REARM {
        outHalf := outHalf.(flag := true);
        if !separate {
          SetBothEnabled(true);
        } else {
          EnableOne(Out);
        }
      }
    }

    /** The end of `dispatch`, after the read handler has returned. */
    method FinishPrimary(returned: Rearm)
      requires Valid()
      modifies this
      ensures Valid() && Abs() == Finish(separate, old(Abs()), returned)
      ensures returned == REMOVED ==> Abs() == old(Abs())
    {
      if returned != REMOVED {
        ghost var p := old(Abs());
        inHalf := inHalf.(active := false);
        assert Abs() == p.(here := p.here.(active := false));
        var rearm := ProcessPrimaryRearm(if inHalf.deleteme then REMOVE else returned);
        if rearm == REMOVE {
          watchRemovedCalls := watchRemovedCalls + 1;
        } else if rearm == REQUEUE {
          inHalf := inHalf.(queued := true);
        }
      }
    }

    /** The end of `dispatch_second`, after the write handler has returned. */
    method FinishSecondary(returned: Rearm)
      requires Valid()
      modifies this
      ensures Valid() && Abs().Swap() == Finish(separate, old(Abs()).Swap(), returned)
      ensures returned == REMOVED ==> Abs() == old(Abs())
    {
      if returned != REMOVED {
        ghost var p := old(Abs()).Swap();
        outHalf := outHalf.(active := false);
        assert Abs().Swap() == p.(here := p.here.(active := false));
        var rearm := ProcessSecondaryRearm(if outHalf.deleteme then REMOVE else returned);
        if rearm == REQUEUE {
          outHalf := outHalf.(queued := true);
        } else if rearm == REMOVE {
          watchRemovedCalls := watchRemovedCalls + 1;
        }
      }
    }

    method SetInWatchEnabled(b: bool)
      requires Valid()
      modifies `inHalf, `outHalf
      ensures Valid() && Abs() == SetEnabled(separate, old(Abs()), b)
    {
      StaysValid(separate, Abs(), NOOP, b);
      inHalf := inHalf.(flag := b);
      if !b { inHalf := inHalf.(queued := false); }
      if !separate {
        SetBothEnabled(inHalf.flag || outHalf.flag);
      } else if b {
        EnableOne(In);
      } else {
        DisableFdWatch(true, false);
      }
    }

    method SetOutWatchEnabled(b: bool)
      requires Valid()
      modifies `inHalf, `outHalf
      ensures Valid() && Abs().Swap() == SetEnabled(separate, old(Abs()).Swap(), b)
    {
      StaysValid(separate, Abs().Swap(), NOOP, b);
      outHalf := outHalf.(flag := b);
      if !b { outHalf := outHalf.(queued := false); }
      if !separate {
        SetBothEnabled(inHalf.flag || outHalf.flag);
      } else if b {
        EnableOne(Out);
      } else {
        DisableFdWatch(false, true);
      }
    }

    method SetWatchFlags(inn: bool, out: bool)
      requires Valid()
      modifies `inHalf, `outHalf
      ensures Valid() && Abs() == SetWatches(separate, old(Abs()), inn, out)
    {
      if separate {
        SetInWatchEnabled(inn);
        SetOutWatchEnabled(out);
      } else {
        inHalf, outHalf := inHalf.(flag := inn), outHalf.(flag := out);
        SetBothEnabled(true);
      }
    }

    /** The bidirectional `issue_delete`. */
    method IssueDelete()
      modifies this
      ensures Abs() == Deletion(old(Abs()))
    {
      if inHalf.active {
        inHalf := inHalf.(deleteme := true);
      } else {
        inHalf := inHalf.(queued := false, removed := true);
      }
      if outHalf.active {
        outHalf := outHalf.(deleteme := true);
      } else {
        outHalf := outHalf.(queued := false, removed := true);
      }
      if inHalf.removed && outHalf.removed {
        watchRemovedCalls := watchRemovedCalls + 1;
      }
    }
  }

  // ---------- Two independent one-shot watchers ----------

  /** What one half looks like from outside; `live` says that it can still be armed. */
  datatype OneShot = OneShot(live: bool, armed: bool, fetched: bool, queued: bool, active: bool,
                             deleteme: bool, removed: bool)

  /** The direction is registered and wanted, and no event of it is in flight. */
  predicate Wanted(h: Half) { h.registered && h.flag && !h.fetched }

  function View(h: Half): OneShot {
    OneShot(h.registered && !h.removed, Wanted(h), h.fetched, h.queued, h.active, h.deleteme, h.removed)
  }

  datatype HalfStep =
    | HFetch | HReceive | HBegin | HFinish(rearm: Rearm) | HEnable | HDisable(dequeue: bool)
    | HUnwatch | HDelete | HSkip

  function OneShotStep(v: OneShot, a: HalfStep): OneShot {
    match a
    case HFetch => v.(armed := false, fetched := true)
    case HReceive => if v.fetched then v.(fetched := false, queued := true) else v
    case HBegin => v.(queued := false, active := true)
    case HFinish(r) =>
      var u := v.(active := false);
      (match (if v.deleteme then REMOVE else r)
       case REMOVE => u.(live := false, armed := false, removed := true)
       case REARM => u.(armed := v.live)
       case DISARM => u.(armed := false)
       case REQUEUE => u.(queued := true)
       case _ => u)
    case HEnable => v.(armed := v.live)
    case HDisable(dequeue) => if dequeue then v.(armed := false, queued := false) else v.(armed := false)
    case HUnwatch => v.(live := false, armed := false)
    case HDelete =>
      if v.active then v.(deleteme := true) else v.(live := false, queued := false, removed := true)
    case HSkip => v
  }

  // ---------- The invariant ----------

  /** The backend arms only what is registered and wanted, and a half's event is in at most one place. */
  ghost predicate HalfOk(sep: bool, h: Half) {
    && (h.armed ==> h.registered && h.flag)
    && (sep ==> (h.armed <==> Wanted(h)))
    && (Wanted(h) || h.fetched ==> !h.queued && !h.active)
    && (h.queued ==> !h.active)
    && (h.removed ==> !h.queued && !h.active && !h.fetched)
    && (h.removed && h.registered ==> !sep && !h.flag)
  }

  /** The backend's arming is the half's bit of `watch_flags`. */
  predicate AlignedHalf(h: Half) { h.registered ==> (h.armed <==> h.flag) }

  predicate NothingFetched(p: Pair) { !p.here.fetched && !p.there.fetched }

  ghost predicate Ok(sep: bool, p: Pair) {
    && HalfOk(sep, p.here) && HalfOk(sep, p.there)
    && (NothingFetched(p) ==> AlignedHalf(p.here) && AlignedHalf(p.there))
    && (!sep ==> p.here.registered == p.there.registered)
    && p.removals == (if p.here.removed && p.there.removed then 1 else 0)
    && (p.removals == 1 ==> !p.here.registered && !p.there.registered)
  }

  /** Each half moves as a one-shot watcher would, and no direction gets registered. */
  ghost predicate Acts(p: Pair, p': Pair, here: HalfStep, there: HalfStep) {
    && (p'.here.registered ==> p.here.registered) && (p'.there.registered ==> p.there.registered)
    && View(p'.here) == OneShotStep(View(p.here), here)
    && View(p'.there) == OneShotStep(View(p.there), there)
  }

  function Fresh(sep: bool, here: bool, there: bool): Pair {
    Pair(Half(true, here, here, false, false, false, false, false),
         Half(true, there, there, false, false, false, false, false), 0)
  }

  predicate Pending(h: Half) { h.fetched || h.queued || h.active }

  // ---------- Each critical section refines the two one-shot watchers ----------

  lemma FetchRefines(sep: bool, p: Pair, here: bool, there: bool)
    requires Ok(sep, p) && NothingFetched(p) && (here || there)
    requires (here ==> p.here.armed) && (there ==> p.there.armed)
    ensures var p' := Fetch(sep, p, here, there);
      Ok(sep, p') && Acts(p, p', if here then HFetch else HSkip, if there then HFetch else HSkip)
    ensures !sep ==> !Fetch(sep, p, here, there).here.armed && !Fetch(sep, p, here, there).there.armed
  {
  }

  /** What a receipt over a combined watch must find for the backend to be left aligned: a direction that is
      still wanted, so that the watch is armed anew, or nothing armed since the fetch. */
  predicate CleanReceipt(p: Pair) {
    || (p.here.flag && !p.here.fetched) || (p.there.flag && !p.there.fetched)
    || (!p.here.armed && !p.there.armed)
  }

  /** A receipt acts on each half as on a one-shot watcher whatever came between it and the fetch, and it
      keeps the invariant exactly when it is over separate watches or clean. */
  lemma ReceiveRefines(sep: bool, p: Pair)
    requires Ok(sep, p)
    ensures Acts(p, Receive(sep, p), HReceive, HReceive)
    ensures Ok(sep, Receive(sep, p)) <==> sep || CleanReceipt(p)
  {
    if sep {
      assert Ok(sep, Receive(sep, p));
    } else {
      CombinedReceipt(p);
    }
  }

  lemma CombinedReceipt(p: Pair)
    requires Ok(false, p)
    ensures Acts(p, Receive(false, p), HReceive, HReceive)
    ensures CleanReceipt(p) ==> Ok(false, Receive(false, p))
    ensures !CleanReceipt(p) ==> !AlignedHalf(Receive(false, p).here) || !AlignedHalf(Receive(false, p).there)
    ensures NothingFetched(Receive(false, p))
  {
    var q := Pair(ReceiveHalf(p.here), ReceiveHalf(p.there), p.removals);
    ReceivedHalf(p.here);
    ReceivedHalf(p.there);
    if q.here.flag || q.there.flag {
      assert Receive(false, p) == ArmBothToFlags(q);
    } else {
      assert Receive(false, p) == q;
    }
  }

  lemma ReceivedHalf(h: Half)
    requires HalfOk(false, h)
    ensures var h' := ReceiveHalf(h);
      && (h'.flag <==> h.flag && !h.fetched) && !h'.fetched && h'.armed == h.armed && h'.registered == h.registered
      && h'.removed == h.removed && View(h') == OneShotStep(View(h), HReceive)
      && HalfOk(false, ArmToFlag(h')) && View(ArmToFlag(h')) == View(h')
      && (!h'.armed ==> HalfOk(false, h'))
  {
  }

  lemma BeginRefines(sep: bool, p: Pair)
    requires Ok(sep, p) && p.here.queued
    ensures Ok(sep, Begin(p)) && Acts(p, Begin(p), HBegin, HSkip)
  {
  }

  lemma FinishRefines(sep: bool, p: Pair, rearm: Rearm)
    requires Ok(sep, p) && p.here.active && rearm != REMOVED
    ensures Ok(sep, Finish(sep, p, rearm)) && Acts(p, Finish(sep, p, rearm), HFinish(rearm), HSkip)
  {
    if p.here.deleteme || rearm == REMOVE {
      RemovalRefines(sep, p, rearm);
    }
  }

  lemma RemovalRefines(sep: bool, p: Pair, rearm: Rearm)
    requires Ok(sep, p) && p.here.active && rearm != REMOVED && (p.here.deleteme || rearm == REMOVE)
    ensures Ok(sep, Finish(sep, p, rearm)) && Acts(p, Finish(sep, p, rearm), HFinish(rearm), HSkip)
  {
  }

  lemma SetEnabledRefines(sep: bool, p: Pair, b: bool)
    requires Ok(sep, p) && (b ==> !Pending(p.here) && !p.here.removed)
    ensures Ok(sep, SetEnabled(sep, p, b))
    ensures Acts(p, SetEnabled(sep, p, b), if b then HEnable else HDisable(true), HSkip)
  {
  }

  lemma SetWatchesRefines(sep: bool, p: Pair, here: bool, there: bool)
    requires Ok(sep, p)
    requires here ==> !Pending(p.here) && !p.here.removed
    requires there ==> !Pending(p.there) && !p.there.removed
    ensures var p' := SetWatches(sep, p, here, there);
      && Ok(sep, p')
      && Acts(p, p', if here then HEnable else HDisable(sep), if there then HEnable else HDisable(sep))
  {
    if sep {
      SetEnabledRefines(sep, p, here);
      SetEnabledRefines(sep, SetEnabled(sep, p, here).Swap(), there);
    }
  }

  lemma UnwatchRefines(sep: bool, p: Pair)
    requires Ok(sep, p)
    ensures Ok(sep, Unwatch(p)) && Acts(p, Unwatch(p), HUnwatch, HUnwatch)
  {
  }

  lemma IssueDeleteRefines(sep: bool, p: Pair)
    requires Ok(sep, p) && !p.here.registered && !p.there.registered && NothingFetched(p) && p.removals == 0
    ensures Ok(sep, Deletion(p)) && Acts(p, Deletion(p), HDelete, HDelete)
  {
  }

  // ---------- Every run ----------

  /** `p` is seen from the input half; `unwatched` and `issued` say how far a `deregister` has got. */
  datatype Bidi = Bidi(sep: bool, p: Pair, unwatched: bool, issued: bool)

  function New(sep: bool, inn: bool, out: bool): Bidi { Bidi(sep, Fresh(sep, inn, out), false, false) }

  function Other(d: Dir): Dir { if d == In then Out else In }

  function Facing(p: Pair, d: Dir): Pair { if d == In then p else p.Swap() }

  function HalfOf(s: Bidi, d: Dir): Half { Facing(s.p, d).here }

  datatype Step =
    | TFetch(inn: bool, out: bool)
    | TReceive
    | TBegin(d: Dir)
    | TFinish(d: Dir, rearm: Rearm)
    | TSetEnabled(d: Dir, b: bool)
    | TSetWatches(inn: bool, out: bool)
    | TUnwatch
    | TDelete

  function Take(s: Bidi, a: Step): Bidi {
    match a
    case TFetch(i, o) => s.(p := Fetch(s.sep, s.p, i, o))
    case TReceive => s.(p := Receive(s.sep, s.p))
    case TBegin(d) => s.(p := Facing(Begin(Facing(s.p, d)), d))
    case TFinish(d, rearm) => s.(p := Facing(Finish(s.sep, Facing(s.p, d), rearm), d))
    case TSetEnabled(d, b) => s.(p := Facing(SetEnabled(s.sep, Facing(s.p, d), b), d))
    case TSetWatches(i, o) => s.(p := SetWatches(s.sep, s.p, i, o))
    case TUnwatch => s.(p := Unwatch(s.p), unwatched := true)
    case TDelete => s.(p := Deletion(s.p), issued := true)
  }

  predicate NothingInFlight(s: Bidi) { NothingFetched(s.p) }

  /** What the loop and the backend can do, over either kind of backend: a fetch and its receipt are separate
      steps with any others in between. The deletion happens under the attention lock, which leaves nothing
      in flight. */
  predicate Possible(s: Bidi, a: Step) {
    match a
    case TFetch(i, o) =>
      NothingInFlight(s) && (i || o) && (i ==> s.p.here.armed) && (o ==> s.p.there.armed)
    case TReceive => !NothingInFlight(s)
    case TBegin(d) => HalfOf(s, d).queued
    case TFinish(d, rearm) => HalfOf(s, d).active && rearm != REMOVED
    case TUnwatch => !s.unwatched
    case TDelete => s.unwatched && !s.issued && NothingInFlight(s)
    case _ => true
  }

  /** A call the client makes on the watcher. */
  predicate ClientCall(a: Step) {
    a.TSetEnabled? || a.TSetWatches? || a.TUnwatch?
  }

  /** While a deregistration waits for the lock, the second half's handler asks for removal as well. */
  predicate LateRemoval(s: Bidi, a: Step) {
    a.TFinish? && a.rearm == REMOVE && s.unwatched && !s.issued && HalfOf(s, Other(a.d)).removed
  }

  /** What the client promises of its calls: it leaves a removed watcher alone, and enables no half that is
      removed or has an event pending. */
  predicate CallsWell(s: Bidi, a: Step) {
    match a
    case TSetEnabled(d, b) =>
      s.p.removals == 0 && (b ==> !Pending(HalfOf(s, d)) && !HalfOf(s, d).removed)
    case TSetWatches(i, o) =>
      && s.p.removals == 0
      && (i ==> !Pending(s.p.here) && !s.p.here.removed)
      && (o ==> !Pending(s.p.there) && !s.p.there.removed)
    case TUnwatch => s.p.removals == 0
    case _ => true
  }

  /** And of its handlers: no late removal. */
  predicate Disciplined(s: Bidi, a: Step) {
    CallsWell(s, a) && !LateRemoval(s, a)
  }

  /** No receipt over a combined watch finds its own event armed again and nothing else wanted. */
  predicate Clean(s: Bidi, a: Step) {
    a.TReceive? && !s.sep ==> CleanReceipt(s.p)
  }

  function Project(sep: bool, a: Step, d: Dir): HalfStep {
    match a
    case TFetch(i, o) => if (if d == In then i else o) then HFetch else HSkip
    case TReceive => HReceive
    case TBegin(e) => if e == d then HBegin else HSkip
    case TFinish(e, rearm) => if e == d then HFinish(rearm) else HSkip
    case TSetEnabled(e, b) => if e != d then HSkip else if b then HEnable else HDisable(true)
    case TSetWatches(i, o) => if (if d == In then i else o) then HEnable else HDisable(sep)
    case TUnwatch => HUnwatch
    case TDelete => HDelete
  }

  ghost predicate Done(h: Half) { h.removed || (h.active && h.deleteme) }

  ghost predicate BidiOk(s: Bidi) {
    && Ok(s.sep, s.p)
    && (s.unwatched ==> !s.p.here.registered && !s.p.there.registered)
    && (if s.issued then s.unwatched && Done(s.p.here) && Done(s.p.there)
        else !s.p.here.deleteme && !s.p.there.deleteme && (s.unwatched ==> s.p.removals == 0))
  }

  /** What is proved of a half facing us holds of either half. */
  lemma FromEitherSide(sep: bool, p: Pair, q: Pair, d: Dir, a: HalfStep)
    requires Ok(sep, q) && Acts(Facing(p, d), q, a, HSkip)
    ensures Ok(sep, Facing(q, d))
    ensures Acts(p, Facing(q, d), if d == In then a else HSkip, if d == Out then a else HSkip)
  {
  }

  lemma SwapOk(sep: bool, p: Pair, d: Dir)
    ensures Ok(sep, Facing(p, d)) == Ok(sep, p)
  {
  }

  /** One step acts on each half exactly as its projection acts on an independent one-shot watcher. */
  lemma StepRefines(s: Bidi, a: Step)
    requires BidiOk(s) && Possible(s, a) && CallsWell(s, a)
    ensures Acts(s.p, Take(s, a).p, Project(s.sep, a, In), Project(s.sep, a, Out))
    ensures Clean(s, a) ==> Ok(s.sep, Take(s, a).p)
  {
    match a
    case TFetch(i, o) => FetchRefines(s.sep, s.p, i, o);
    case TReceive => ReceiveRefines(s.sep, s.p);
    case TSetWatches(i, o) => SetWatchesRefines(s.sep, s.p, i, o);
    case TUnwatch => UnwatchRefines(s.sep, s.p);
    case TDelete => IssueDeleteRefines(s.sep, s.p);
    case TBegin(d) => BeginRefinesFrom(s.sep, s.p, d);
    case TFinish(d, rearm) => FinishRefinesFrom(s.sep, s.p, d, rearm);
    case TSetEnabled(d, b) => SetEnabledRefinesFrom(s.sep, s.p, d, b);
  }

  lemma BeginRefinesFrom(sep: bool, p: Pair, d: Dir)
    requires Ok(sep, p) && Facing(p, d).here.queued
    ensures var p' := Facing(Begin(Facing(p, d)), d);
      Ok(sep, p') && Acts(p, p', if d == In then HBegin else HSkip, if d == Out then HBegin else HSkip)
  {
    SwapOk(sep, p, d);
    BeginRefines(sep, Facing(p, d));
    FromEitherSide(sep, p, Begin(Facing(p, d)), d, HBegin);
  }

  lemma FinishRefinesFrom(sep: bool, p: Pair, d: Dir, rearm: Rearm)
    requires Ok(sep, p) && Facing(p, d).here.active && rearm != REMOVED
    ensures var p' := Facing(Finish(sep, Facing(p, d), rearm), d);
      Ok(sep, p')
      && Acts(p, p', if d == In then HFinish(rearm) else HSkip, if d == Out then HFinish(rearm) else HSkip)
  {
    SwapOk(sep, p, d);
    FinishRefines(sep, Facing(p, d), rearm);
    FromEitherSide(sep, p, Finish(sep, Facing(p, d), rearm), d, HFinish(rearm));
  }

  lemma SetEnabledRefinesFrom(sep: bool, p: Pair, d: Dir, b: bool)
    requires Ok(sep, p) && (b ==> !Pending(Facing(p, d).here) && !Facing(p, d).here.removed)
    ensures var p', a := Facing(SetEnabled(sep, Facing(p, d), b), d), if b then HEnable else HDisable(true);
      Ok(sep, p') && Acts(p, p', if d == In then a else HSkip, if d == Out then a else HSkip)
  {
    SwapOk(sep, p, d);
    SetEnabledRefines(sep, Facing(p, d), b);
    FromEitherSide(sep, p, SetEnabled(sep, Facing(p, d), b), d, if b then HEnable else HDisable(true));
  }

  /** A half that is done with stays so. */
  lemma DoneStaysDone(h: Half, h': Half, a: HalfStep, sep: bool)
    requires HalfOk(sep, h) && Done(h) && View(h') == OneShotStep(View(h), a)
    requires (a == HBegin ==> h.queued) && (a.HFinish? ==> h.active && a.rearm != REMOVED)
    ensures Done(h')
  {
  }

  lemma StepKeepsOk(s: Bidi, a: Step)
    requires BidiOk(s) && Possible(s, a) && Disciplined(s, a) && Clean(s, a)
    ensures BidiOk(Take(s, a))
  {
    StepRefines(s, a);
    if s.issued {
      IssuedStaysDone(s, a);
    } else if !a.TDelete? {
      UndeletedStep(View(s.p.here), Project(s.sep, a, In));
      UndeletedStep(View(s.p.there), Project(s.sep, a, Out));
    }
  }

  lemma IssuedStaysDone(s: Bidi, a: Step)
    requires BidiOk(s) && s.issued && Possible(s, a)
    requires Acts(s.p, Take(s, a).p, Project(s.sep, a, In), Project(s.sep, a, Out))
    ensures Done(Take(s, a).p.here) && Done(Take(s, a).p.there)
  {
    var p' := Take(s, a).p;
    DoneStaysDone(s.p.here, p'.here, Project(s.sep, a, In), s.sep);
    DoneStaysDone(s.p.there, p'.there, Project(s.sep, a, Out), s.sep);
  }

  /** Before the deletion only a handler's REMOVE removes a half. */
  lemma UndeletedStep(v: OneShot, a: HalfStep)
    requires !v.deleteme && a != HDelete
    ensures var v' := OneShotStep(v, a); !v'.deleteme && (v'.removed <==> v.removed || a == HFinish(REMOVE))
  {
    if a.HFinish? {
      match a.rearm {
        case REMOVE =>
        case REARM =>
        case DISARM =>
        case REQUEUE =>
        case _ =>
      }
    }
  }

  /** Any run of the loop with a client whose calls are in order. */
  predicate Orderly(s: Bidi, run: seq<Step>)
    decreases |run|
  {
    run == [] || (Possible(s, run[0]) && CallsWell(s, run[0]) && Orderly(Take(s, run[0]), run[1..]))
  }

  /** No late removal on the way. */
  predicate NoLateRemoval(s: Bidi, run: seq<Step>)
    decreases |run|
  {
    run == [] || (!LateRemoval(s, run[0]) && NoLateRemoval(Take(s, run[0]), run[1..]))
  }

  /** Every receipt on the way is clean, as it always is over separate watches. */
  predicate CleanThroughout(s: Bidi, run: seq<Step>)
    decreases |run|
  {
    run == [] || (Clean(s, run[0]) && CleanThroughout(Take(s, run[0]), run[1..]))
  }

  function After(s: Bidi, run: seq<Step>): Bidi
    decreases |run|
  {
    if run == [] then s else After(Take(s, run[0]), run[1..])
  }

  /** A one-shot watcher run on its own through the steps that concern it. */
  function AfterAlone(sep: bool, v: OneShot, run: seq<Step>, d: Dir): OneShot
    decreases |run|
  {
    if run == [] then v else AfterAlone(sep, OneShotStep(v, Project(sep, run[0], d)), run[1..], d)
  }

  /** What a one-shot watcher is able to do. */
  predicate CanStep(v: OneShot, a: HalfStep) {
    match a
    case HFetch => v.armed
    case HBegin => v.queued
    case HFinish(r) => v.active && r != REMOVED
    case HEnable => !v.fetched && !v.queued && !v.active && !v.removed
    case HDelete => !v.fetched
    case _ => true
  }

  /** The steps that concern it are steps it can take. */
  predicate CanStepThroughout(sep: bool, v: OneShot, run: seq<Step>, d: Dir)
    decreases |run|
  {
    run == [] || (CanStep(v, Project(sep, run[0], d))
                  && CanStepThroughout(sep, OneShotStep(v, Project(sep, run[0], d)), run[1..], d))
  }

  lemma StepIsEnabled(s: Bidi, a: Step)
    requires BidiOk(s) && Possible(s, a) && CallsWell(s, a)
    ensures CanStep(View(s.p.here), Project(s.sep, a, In)) && CanStep(View(s.p.there), Project(s.sep, a, Out))
  {
  }

  /** Bidi refinement, over every run and for both kinds of backend: each half behaves as a one-shot watcher run on
      its own, taking only steps that such a watcher can take. */
  lemma {:induction false} RunSimulatesTwoWatchers(s: Bidi, run: seq<Step>)
    requires BidiOk(s) && Orderly(s, run) && NoLateRemoval(s, run) && CleanThroughout(s, run)
    ensures BidiOk(After(s, run)) && After(s, run).sep == s.sep
    ensures View(After(s, run).p.here) == AfterAlone(s.sep, View(s.p.here), run, In)
    ensures View(After(s, run).p.there) == AfterAlone(s.sep, View(s.p.there), run, Out)
    ensures CanStepThroughout(s.sep, View(s.p.here), run, In) && CanStepThroughout(s.sep, View(s.p.there), run, Out)
    decreases |run|
  {
    OneShotsCanFollow(s, run);
    if run != [] {
      StepRefines(s, run[0]);
      StepKeepsOk(s, run[0]);
      RunSimulatesTwoWatchers(Take(s, run[0]), run[1..]);
    }
  }

  lemma {:induction false} OneShotsCanFollow(s: Bidi, run: seq<Step>)
    requires BidiOk(s) && Orderly(s, run) && NoLateRemoval(s, run) && CleanThroughout(s, run)
    ensures CanStepThroughout(s.sep, View(s.p.here), run, In) && CanStepThroughout(s.sep, View(s.p.there), run, Out)
    decreases |run|
  {
    if run != [] {
      StepIsEnabled(s, run[0]);
      StepRefines(s, run[0]);
      StepKeepsOk(s, run[0]);
      OneShotsCanFollow(Take(s, run[0]), run[1..]);
    }
  }

  // ---------- Arming ----------

  /** With nothing in flight, the backend's armed directions are those in `watch_flags`. */
  predicate Aligned(s: Bidi) {
    NothingInFlight(s) ==> AlignedHalf(s.p.here) && AlignedHalf(s.p.there)
  }

  predicate AlignedThroughout(s: Bidi, run: seq<Step>)
    decreases |run|
  {
    Aligned(s) && (run == [] || AlignedThroughout(Take(s, run[0]), run[1..]))
  }

  /** Over every run, the armed directions equal `watch_flags` after every critical section with nothing in
      flight exactly when every receipt is clean. */
  lemma {:induction false} ArmedEqualsWatchFlagsIff(s: Bidi, run: seq<Step>)
    requires BidiOk(s) && Orderly(s, run) && NoLateRemoval(s, run)
    ensures AlignedThroughout(s, run) <==> CleanThroughout(s, run)
    decreases |run|
  {
    if run != [] {
      if Clean(s, run[0]) {
        StepKeepsOk(s, run[0]);
        ArmedEqualsWatchFlagsIff(Take(s, run[0]), run[1..]);
      } else {
        CombinedReceipt(s.p);
        assert !Aligned(Take(s, run[0]));
      }
    }
  }

  /** Over separate watches every receipt is clean. */
  lemma {:induction false} SeparateIsClean(s: Bidi, run: seq<Step>)
    requires s.sep
    ensures CleanThroughout(s, run)
    decreases |run|
  {
    if run != [] {
      SeparateIsClean(Take(s, run[0]), run[1..]);
    }
  }

  // ---------- Removal ----------

  /** Bidi removal, under any interleaving of removals from either half with one deregistration:
      `watch_removed` has been called exactly when both halves are removed, never twice, and then no
      half is active, queued, fetched or armed; once the deletion is issued and no handler runs, it
      has been called. */
  lemma WatchRemovedExactlyOnce(sep: bool, inn: bool, out: bool, run: seq<Step>)
    requires var s := New(sep, inn, out); Orderly(s, run) && NoLateRemoval(s, run) && CleanThroughout(s, run)
    ensures var s := After(New(sep, inn, out), run);
      && s.p.removals <= 1
      && (s.p.removals == 1 <==> s.p.here.removed && s.p.there.removed)
      && (s.p.removals == 1 ==> !Pending(s.p.here) && !Pending(s.p.there) && !s.p.here.armed && !s.p.there.armed)
      && (s.issued && !s.p.here.active && !s.p.there.active ==> s.p.removals == 1)
  {
    RunSimulatesTwoWatchers(New(sep, inn, out), run);
  }

  /** After `watch_removed` the loop can do nothing with the watcher: whatever is still possible is a call
      that the client has promised not to make. So no continuation touches it. */
  lemma RemovedBidiIsUntouchable(sep: bool, inn: bool, out: bool, run: seq<Step>, a: Step)
    requires var s := New(sep, inn, out); Orderly(s, run) && NoLateRemoval(s, run) && CleanThroughout(s, run)
    requires After(New(sep, inn, out), run).p.removals == 1
    ensures var s := After(New(sep, inn, out), run); Possible(s, a) ==> ClientCall(a) && !CallsWell(s, a)
  {
    RunSimulatesTwoWatchers(New(sep, inn, out), run);
  }

  // ---------- Removal twice ----------

  /** Both halves were removed by their handlers while a deregistration waits for the lock, or did so. */
  ghost predicate RemovedLate(s: Bidi) {
    && s.unwatched && s.p.here.removed && s.p.there.removed
    && !s.p.here.armed && !s.p.there.armed && !s.p.here.registered && !s.p.there.registered
    && !Pending(s.p.here) && !Pending(s.p.there)
    && s.p.removals == (if s.issued then 2 else 1)
  }

  lemma LateStep(s: Bidi, a: Step)
    requires BidiOk(s) && Possible(s, a) && LateRemoval(s, a)
    ensures RemovedLate(Take(s, a)) && !Take(s, a).issued
  {
    StepRefines(s, a);
  }

  /** From then on only the deletion can happen. */
  lemma {:induction false} LateStays(s: Bidi, run: seq<Step>)
    requires RemovedLate(s) && Orderly(s, run)
    ensures RemovedLate(After(s, run))
    decreases |run|
  {
    if run != [] {
      LateStays(Take(s, run[0]), run[1..]);
    }
  }

  /** Over every run with a deregistration that has issued its deletion, `watch_removed` is called twice
      exactly when the second half's handler returned REMOVE while the deregistration was waiting. */
  lemma {:induction false} RemovedTwiceIff(s: Bidi, run: seq<Step>)
    requires BidiOk(s) && Orderly(s, run) && CleanThroughout(s, run)
    ensures After(s, run).p.removals <= 2
    ensures After(s, run).p.removals == 2 <==> !NoLateRemoval(s, run) && After(s, run).issued
    decreases |run|
  {
    if run != [] {
      if LateRemoval(s, run[0]) {
        LateStep(s, run[0]);
        LateStays(Take(s, run[0]), run[1..]);
      } else {
        StepKeepsOk(s, run[0]);
        RemovedTwiceIff(Take(s, run[0]), run[1..]);
      }
    }
  }

  /** A run that does: both handlers run, the input handler asks for removal, the client deregisters, the
      output handler asks for removal, and the deletion is issued. */
  lemma SecondRemovalIsReachable(sep: bool) returns (run: seq<Step>)
    ensures var s := New(sep, true, true);
      Orderly(s, run) && CleanThroughout(s, run) && After(s, run).p.removals == 2
  {
    var start := [TFetch(true, true), TReceive, TBegin(In), TBegin(Out)];
    var end := [TFinish(In, REMOVE), TUnwatch, TFinish(Out, REMOVE), TDelete];
    BothHandlersRun(sep);
    RemovesTwice(sep);
    run := Joined(New(sep, true, true), start, end);
  }

  lemma Joined(s: Bidi, a: seq<Step>, b: seq<Step>) returns (run: seq<Step>)
    requires Orderly(s, a) && CleanThroughout(s, a) && Orderly(After(s, a), b) && CleanThroughout(After(s, a), b)
    ensures Orderly(s, run) && CleanThroughout(s, run) && After(s, run) == After(After(s, a), b)
  {
    RunsJoin(s, a, b);
    run := a + b;
  }

  lemma BothHandlersRun(sep: bool)
    ensures var s, run := New(sep, true, true), [TFetch(true, true), TReceive, TBegin(In), TBegin(Out)];
      var h := Half(true, false, false, false, false, true, false, false);
      Orderly(s, run) && CleanThroughout(s, run) && After(s, run) == Bidi(sep, Pair(h, h, 0), false, false)
  {
    var s0 := New(sep, true, true);
    var run := [TFetch(true, true), TReceive, TBegin(In), TBegin(Out)];
    var s1 := Take(s0, run[0]);
    var s2 := Take(s1, run[1]);
    assert s2.p.here == s2.p.there == Half(true, false, false, false, true, false, false, false);
    assert run[1..] == [run[1], run[2], run[3]] && run[1..][1..] == [run[2], run[3]] && run[1..][1..][1..] == [run[3]];
    assert Orderly(s2, [run[2], run[3]]) && CleanThroughout(s2, [run[2], run[3]]);
    assert Orderly(s1, run[1..]) && CleanThroughout(s1, run[1..]);
  }

  lemma RemovesTwice(sep: bool)
    ensures var h := Half(true, false, false, false, false, true, false, false);
      var s := Bidi(sep, Pair(h, h, 0), false, false);
      var run := [TFinish(In, REMOVE), TUnwatch, TFinish(Out, REMOVE), TDelete];
      Orderly(s, run) && CleanThroughout(s, run) && After(s, run).p.removals == 2
  {
    var h := Half(true, false, false, false, false, true, false, false);
    var run := [TFinish(In, REMOVE), TUnwatch, TFinish(Out, REMOVE), TDelete];
    var s0 := Bidi(sep, Pair(h, h, 0), false, false);
    var s1 := Take(s0, run[0]);
    var s2 := Take(s1, run[1]);
    var s3 := Take(s2, run[2]);
    assert s3.p.removals == 1;
    assert run[1..] == [run[1], run[2], run[3]] && run[1..][1..] == [run[2], run[3]] && run[1..][1..][1..] == [run[3]];
    assert Orderly(s3, [run[3]]) && CleanThroughout(s3, [run[3]]);
    assert Orderly(s2, [run[2], run[3]]) && CleanThroughout(s2, [run[2], run[3]]);
    assert Orderly(s1, run[1..]) && CleanThroughout(s1, run[1..]);
  }

  lemma {:induction false} RunsJoin(s: Bidi, a: seq<Step>, b: seq<Step>)
    requires Orderly(s, a) && Orderly(After(s, a), b)
    ensures Orderly(s, a + b) && After(s, a + b) == After(After(s, a), b)
    ensures CleanThroughout(s, a) && CleanThroughout(After(s, a), b) ==> CleanThroughout(s, a + b)
    ensures NoLateRemoval(s, a) && NoLateRemoval(After(s, a), b) ==> NoLateRemoval(s, a + b)
    decreases |a|
  {
    if a == [] {
      assert a + b == b;
    } else {
      assert (a + b)[1..] == a[1..] + b;
      RunsJoin(Take(s, a[0]), a[1..], b);
    }
  }

  // ---------- The race over a combined watch ----------

  /** A poller has fetched the output event when the input handler ends with DISARM, which arms the output
      direction again. The receipt leaves it armed although its handler is queued; it is fetched again while
      that handler runs, the watcher is deregistered, and the handler's end calls `watch_removed` with the
      output half queued: it will be dispatched afterwards. */
  lemma CombinedRaceIsUnsafe()
    ensures var s := New(false, true, true);
      var start := [TFetch(true, false), TReceive, TBegin(In), TFetch(false, true), TFinish(In, DISARM), TReceive];
      var end := [TBegin(Out), TFetch(false, true), TReceive, TUnwatch, TDelete, TFinish(Out, NOOP)];
      && Orderly(s, start + end) && NoLateRemoval(s, start + end)
      && After(s, start + end).p.removals == 1 && Possible(After(s, start + end), TBegin(Out))
  {
    var start := [TFetch(true, false), TReceive, TBegin(In), TFetch(false, true), TFinish(In, DISARM), TReceive];
    var end := [TBegin(Out), TFetch(false, true), TReceive, TUnwatch, TDelete, TFinish(Out, NOOP)];
    RaceStarts();
    RaceEnds();
    RunsJoin(New(false, true, true), start, end);
  }

  /** The output half is queued and, though not wanted, armed. */
  const RACED := Bidi(false, Pair(Half(true, false, false, false, false, false, false, false),
                                  Half(true, true, false, false, true, false, false, false), 0), false, false)

  lemma RaceStarts()
    ensures var s := New(false, true, true);
      var run := [TFetch(true, false), TReceive, TBegin(In), TFetch(false, true), TFinish(In, DISARM), TReceive];
      Orderly(s, run) && NoLateRemoval(s, run) && After(s, run) == RACED
  {
    var run := [TFetch(true, false), TReceive, TBegin(In), TFetch(false, true), TFinish(In, DISARM), TReceive];
    Unrolled(New(false, true, true), run);
  }

  lemma RaceEnds()
    ensures var run := [TBegin(Out), TFetch(false, true), TReceive, TUnwatch, TDelete, TFinish(Out, NOOP)];
      && Orderly(RACED, run) && NoLateRemoval(RACED, run)
      && After(RACED, run).p.removals == 1 && Possible(After(RACED, run), TBegin(Out))
  {
    var run := [TBegin(Out), TFetch(false, true), TReceive, TUnwatch, TDelete, TFinish(Out, NOOP)];
    Unrolled(RACED, run);
  }

  // ---------- Exactly the receipts that are not clean are dangerous ----------

  /** `watch_removed` has been called with a half still queued, to be dispatched. */
  predicate QueuedAfterRemoval(s: Bidi) {
    s.p.removals > 0 && (s.p.here.queued || s.p.there.queued)
  }

  ghost predicate WellBehaved(s: Bidi, run: seq<Step>) {
    Orderly(s, run) && NoLateRemoval(s, run) && CleanThroughout(s, run)
  }

  /** Some well-behaved continuation comes to that. */
  ghost predicate CanGoWrong(s: Bidi) {
    exists run :: WellBehaved(s, run) && QueuedAfterRemoval(After(s, run))
  }

  lemma WrongLater(s: Bidi, a: Step)
    requires Good(s, a) && Clean(s, a) && CanGoWrong(Take(s, a))
    ensures CanGoWrong(s)
  {
    var rest :| WellBehaved(Take(s, a), rest) && QueuedAfterRemoval(After(Take(s, a), rest));
    var run := [a] + rest;
    assert run[1..] == rest && run[0] == a;
    assert WellBehaved(s, run) && QueuedAfterRemoval(After(s, run));
  }

  /** From a watcher in good order nothing goes wrong. */
  lemma OkGoesRight(s: Bidi)
    requires BidiOk(s)
    ensures !CanGoWrong(s)
  {
    forall run | WellBehaved(s, run)
      ensures !QueuedAfterRemoval(After(s, run))
    {
      RunSimulatesTwoWatchers(s, run);
    }
  }

  /** A half is armed while its handler runs. */
  predicate ArmedWhileActive(s: Bidi, d: Dir) {
    var h, o := HalfOf(s, d), HalfOf(s, Other(d));
    && h.registered && h.armed && h.active && !h.queued && !h.fetched && !h.deleteme && !h.removed
    && !o.fetched && !o.deleteme && (o.removed ==> !o.active)
    && s.p.removals == 0 && !s.unwatched && !s.issued
  }

  /** Its event is queued again while its handler runs. */
  predicate QueuedWhileActive(s: Bidi, d: Dir) {
    var h, o := HalfOf(s, d), HalfOf(s, Other(d));
    && h.active && h.queued && !h.fetched && !h.removed && !o.fetched && s.p.removals == 0
    && (o.removed ==> !o.active)
    && (s.issued ==> h.deleteme && (o.removed || (o.active && o.deleteme)))
    && (s.issued ==> s.unwatched)
  }

  /** The deletion has been issued: the ends of the handlers call `watch_removed`. */
  lemma {:induction false} HandlersEnd(s: Bidi, d: Dir)
    requires QueuedWhileActive(s, d) && s.issued
    ensures CanGoWrong(s)
    decreases HalfOf(s, Other(d)).active
  {
    if HalfOf(s, Other(d)).removed {
      var s1 := Take(s, TFinish(d, NOOP));
      LastHandlerEnds(s, d);
      assert WellBehaved(s1, []) && QueuedAfterRemoval(After(s1, []));
      WrongLater(s, TFinish(d, NOOP));
    } else {
      OtherHandlerEnds(s, d);
      HandlersEnd(Take(s, TFinish(Other(d), NOOP)), d);
      WrongLater(s, TFinish(Other(d), NOOP));
    }
  }

  lemma LastHandlerEnds(s: Bidi, d: Dir)
    requires QueuedWhileActive(s, d) && s.issued && HalfOf(s, Other(d)).removed
    ensures Good(s, TFinish(d, NOOP)) && QueuedAfterRemoval(Take(s, TFinish(d, NOOP)))
  {
  }

  lemma OtherHandlerEnds(s: Bidi, d: Dir)
    requires QueuedWhileActive(s, d) && s.issued && !HalfOf(s, Other(d)).removed
    ensures var a := TFinish(Other(d), NOOP);
      && Good(s, a) && QueuedWhileActive(Take(s, a), d) && Take(s, a).issued
      && HalfOf(Take(s, a), Other(d)).removed
  {
  }

  lemma DeletedWhileQueued(s: Bidi, d: Dir)
    requires QueuedWhileActive(s, d) && !s.issued && !s.unwatched
    ensures CanGoWrong(s)
  {
    var s1 := Take(s, TUnwatch);
    UnwatchedWhileQueued(s, d);
    HandlersEnd(Take(s1, TDelete), d);
    WrongLater(s1, TDelete);
    WrongLater(s, TUnwatch);
  }

  lemma UnwatchedWhileQueued(s: Bidi, d: Dir)
    requires QueuedWhileActive(s, d) && !s.issued && !s.unwatched
    ensures Good(s, TUnwatch)
    ensures var s1 := Take(s, TUnwatch);
      Good(s1, TDelete) && QueuedWhileActive(Take(s1, TDelete), d) && Take(s1, TDelete).issued
  {
  }

  lemma FetchedWhileActive(s: Bidi, d: Dir)
    requires ArmedWhileActive(s, d)
    ensures CanGoWrong(s)
  {
    var fetch := TFetch(d == In, d == Out);
    FetchedAgain(s, d);
    var s1 := Take(s, fetch);
    DeletedWhileQueued(Take(s1, TReceive), d);
    WrongLater(s1, TReceive);
    WrongLater(s, fetch);
  }

  lemma FetchedAgain(s: Bidi, d: Dir)
    requires ArmedWhileActive(s, d)
    ensures var fetch := TFetch(d == In, d == Out);
      var s1 := Take(s, fetch);
      && Good(s, fetch) && Good(s1, TReceive) && Clean(s1, TReceive)
      && QueuedWhileActive(Take(s1, TReceive), d) && !Take(s1, TReceive).issued && !Take(s1, TReceive).unwatched
  {
  }

  lemma BegunWhileArmed(s: Bidi, d: Dir)
    requires HalfOf(s, d).queued && !HalfOf(s, d).active && ArmedWhileActive(Take(s, TBegin(d)), d)
    ensures CanGoWrong(s)
  {
    FetchedWhileActive(Take(s, TBegin(d)), d);
    WrongLater(s, TBegin(d));
  }

  /** After a receipt, some well-behaved continuation leaves a half queued after `watch_removed` exactly when the
      receipt was not clean. */
  lemma ReceiptIsSafeIff(s: Bidi)
    requires BidiOk(s) && Possible(s, TReceive)
    ensures CanGoWrong(Take(s, TReceive)) <==> !Clean(s, TReceive)
  {
    if Clean(s, TReceive) {
      StepKeepsOk(s, TReceive);
      OkGoesRight(Take(s, TReceive));
    } else {
      var d := StrayHalf(s);
      BegunWhileArmed(Take(s, TReceive), d);
    }
  }

  lemma StrayHalf(s: Bidi) returns (d: Dir)
    requires BidiOk(s) && Possible(s, TReceive) && !Clean(s, TReceive)
    ensures var s1 := Take(s, TReceive);
      HalfOf(s1, d).queued && !HalfOf(s1, d).active && ArmedWhileActive(Take(s1, TBegin(d)), d)
  {
    d := if s.p.here.armed then In else Out;
  }

  // ---------- Exactly the halves with an event pending are dangerous to enable ----------

  /** An event of the half is queued or being handled; or, over separate watches, in flight, where the client cannot
      see it. Over a combined watch an enabled half in flight is settled by a clean receipt. */
  predicate RiskyToEnable(s: Bidi, d: Dir) {
    var h := HalfOf(s, d);
    h.queued || h.active || (s.sep && h.fetched)
  }

  lemma HarmlessEnable(s: Bidi, d: Dir)
    requires BidiOk(s) && HalfOf(s, d).registered && !HalfOf(s, d).removed && !RiskyToEnable(s, d)
    ensures BidiOk(Take(s, TSetEnabled(d, true)))
  {
  }

  /** The half is armed in its handler, or will be when it is begun. */
  predicate Exposed(s: Bidi, d: Dir) {
    || ArmedWhileActive(s, d)
    || (HalfOf(s, d).queued && !HalfOf(s, d).active && ArmedWhileActive(Take(s, TBegin(d)), d))
  }

  lemma ExposedGoesWrong(s: Bidi, d: Dir)
    requires Exposed(s, d)
    ensures CanGoWrong(s)
  {
    if ArmedWhileActive(s, d) {
      FetchedWhileActive(s, d);
    } else {
      BegunWhileArmed(s, d);
    }
  }

  lemma EnabledAtRest(s: Bidi, d: Dir)
    requires BidiOk(s) && HalfOf(s, d).registered && !HalfOf(s, d).removed && RiskyToEnable(s, d) && NothingInFlight(s)
    ensures Exposed(Take(s, TSetEnabled(d, true)), d)
  {
  }

  lemma EnabledInFlight(s: Bidi, d: Dir)
    requires BidiOk(s) && HalfOf(s, d).registered && !HalfOf(s, d).removed && RiskyToEnable(s, d) && !NothingInFlight(s)
    ensures var s1 := Take(s, TSetEnabled(d, true));
      Good(s1, TReceive) && Clean(s1, TReceive) && Exposed(Take(s1, TReceive), d)
  {
  }

  /** From every state in good order: after enabling a registered half, some well-behaved continuation leaves a half
      queued after `watch_removed` exactly when the half was risky to enable. */
  lemma EnablingHalfIsSafeIff(s: Bidi, d: Dir)
    requires BidiOk(s) && HalfOf(s, d).registered && !HalfOf(s, d).removed
    ensures CanGoWrong(Take(s, TSetEnabled(d, true))) <==> RiskyToEnable(s, d)
  {
    var s1 := Take(s, TSetEnabled(d, true));
    if !RiskyToEnable(s, d) {
      HarmlessEnable(s, d);
      OkGoesRight(s1);
    } else if NothingInFlight(s) {
      EnabledAtRest(s, d);
      ExposedGoesWrong(s1, d);
    } else {
      EnabledInFlight(s, d);
      ExposedGoesWrong(Take(s1, TReceive), d);
      WrongLater(s1, TReceive);
    }
  }

  /** A run of six steps, state by state. */
  lemma Unrolled(s: Bidi, run: seq<Step>)
    requires |run| == 6
    ensures var s1 := Take(s, run[0]);
      var s2 := Take(s1, run[1]);
      var s3 := Take(s2, run[2]);
      var s4 := Take(s3, run[3]);
      var s5 := Take(s4, run[4]);
      && After(s, run) == Take(s5, run[5])
      && (Good(s, run[0]) && Good(s1, run[1]) && Good(s2, run[2])
          && Good(s3, run[3]) && Good(s4, run[4]) && Good(s5, run[5])
          ==> Orderly(s, run) && NoLateRemoval(s, run))
  {
    FirstStep(s, run);
    var s1, r1 := Take(s, run[0]), run[1..];
    FirstStep(s1, r1);
    var s2, r2 := Take(s1, run[1]), r1[1..];
    FirstStep(s2, r2);
    var s3, r3 := Take(s2, run[2]), r2[1..];
    FirstStep(s3, r3);
    var s4, r4 := Take(s3, run[3]), r3[1..];
    FirstStep(s4, r4);
    FirstStep(Take(s4, run[4]), r4[1..]);
  }

  predicate Good(s: Bidi, a: Step) { Possible(s, a) && Disciplined(s, a) }

  lemma FirstStep(s: Bidi, run: seq<Step>)
    requires run != []
    ensures After(s, run) == After(Take(s, run[0]), run[1..])
    ensures Good(s, run[0]) && Orderly(Take(s, run[0]), run[1..]) && NoLateRemoval(Take(s, run[0]), run[1..])
        ==> Orderly(s, run) && NoLateRemoval(s, run)
  {
  }
}
