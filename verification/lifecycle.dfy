/** How the host drives watchers: delivering state changes to every live
    subscription, and setting up and unloading the watchers of a config
    entry. */
module Lifecycle {
  import opened Options
  import opened Devices
  import opened Text
  import opened Watchers
  import opened ConfigFlow

  /** What happens to one watcher over time: it is started, stopped, or its
      entity's state changes. */
  datatype Command = StartCmd | StopCmd | Notify(e: Event)

  /** The callback run once for each of the `n` live subscriptions. */
  function Dispatch(w: Watcher, e: Event, n: nat): (r: (Watcher, seq<Post>))
    ensures r.0.(lastSent := w.lastSent) == w
    decreases n
  {
    if n == 0 then (w, [])
    else
      var (w1, p) := StateChanged(w, e);
      var (w2, ps) := Dispatch(w1, e, n - 1);
      (w2, OptionToSeq(p) + ps)
  }

  /** However many live subscriptions deliver an event, it is posted at most
      once: the debounce swallows the repeats. */
  lemma {:induction false} DispatchPostsOnce(w: Watcher, e: Event, n: nat)
    requires n >= 1
    ensures Dispatch(w, e, n) == (StateChanged(w, e).0, OptionToSeq(StateChanged(w, e).1))
    decreases n
  {
    var (w1, p) := StateChanged(w, e);
    if n > 1 {
      DispatchPostsOnce(w1, e, n - 1);
      StateChangedSettles(w, e);
    }
    assert Dispatch(w1, e, n - 1) == (w1, []);
    assert OptionToSeq(p) + [] == OptionToSeq(p);
  }

  /** Runs commands against a watcher. `live` counts the subscriptions the
      host holds for its callback: starting adds one, stopping cancels the
      one whose handle the watcher held, and each state change runs the
      callback once per live subscription. Returns the watcher, the live
      count and the posts scheduled. */
  function Run(w: Watcher, live: nat, cmds: seq<Command>): (r: (Watcher, nat, seq<Post>))
    ensures r.0.(unsub := w.unsub, lastSent := w.lastSent) == w
    decreases |cmds|
  {
    if cmds == [] then (w, live, [])
    else match cmds[0]
      case StartCmd =>
        Run(Start(w), if Ready(w) then live + 1 else live, cmds[1..])
      case StopCmd =>
        var (w1, cancelled) := Stop(w);
        Run(w1, if cancelled.Some? && live > 0 then live - 1 else live, cmds[1..])
      case Notify(e) =>
        var (w1, ps) := Dispatch(w, e, live);
        var r := Run(w1, live, cmds[1..]);
        (r.0, r.1, ps + r.2)
  }

  /** Each event delivered as a state change, in order. */
  function Notifies(events: seq<Event>): (r: seq<Command>)
    ensures |r| == |events|
    decreases |events|
  {
    if events == [] then [] else [Notify(events[0])] + Notifies(events[1..])
  }

  /** With one live subscription, every state change reaches the callback:
      the posts are the debounced positions of the events, exactly as the
      callback run over them directly. */
  lemma {:induction false} LiveFeeds(w: Watcher, events: seq<Event>)
    ensures Run(w, 1, Notifies(events)) == (Feed(w, events).0, 1, Debounced(w.lastSent, events))
    decreases |events|
  {
    if events != [] {
      var cmds := Notifies(events);
      assert cmds[0] == Notify(events[0]) && cmds[1..] == Notifies(events[1..]);
      DispatchPostsOnce(w, events[0], 1);
      LiveFeeds(StateChanged(w, events[0]).0, events[1..]);
    }
  }

  /** With no live subscription, state changes never reach the callback. */
  lemma {:induction false} UnheardEvents(w: Watcher, events: seq<Event>)
    ensures Run(w, 0, Notifies(events)) == (w, 0, [])
    decreases |events|
  {
    if events != [] {
      var cmds := Notifies(events);
      assert cmds[0] == Notify(events[0]) && cmds[1..] == Notifies(events[1..]);
      UnheardEvents(w, events[1..]);
      assert Dispatch(w, events[0], 0) == (w, []);
      assert [] + Run(w, 0, cmds[1..]).2 == [];
    }
  }

  /** Starting a watcher while the host holds no subscription for it, then
      changing its entity's state: a startable watcher posts the debounced
      positions of the events, any other posts nothing. */
  lemma {:induction false} StartFeeds(w: Watcher, events: seq<Event>)
    ensures Run(w, 0, [StartCmd] + Notifies(events)).2
         == if Ready(w) then Debounced(w.lastSent, events) else []
  {
    var cmds := [StartCmd] + Notifies(events);
    assert cmds[0] == StartCmd && cmds[1..] == Notifies(events);
    if Ready(w) {
      LiveFeeds(Start(w), events);
    } else {
      UnheardEvents(w, events);
    }
  }

  lemma {:induction false} FreshFromAppend(prev: Option<Pair>, a: seq<Post>, b: seq<Post>)
    requires FreshFrom(prev, a) && FreshFrom(LastPair(prev, a), b)
    ensures FreshFrom(prev, a + b)
    ensures LastPair(prev, a + b) == LastPair(LastPair(prev, a), b)
    decreases |a|
  {
    if a != [] {
      assert (a + b)[0] == a[0] && (a + b)[1..] == a[1..] + b;
      FreshFromAppend(Some(PairOf(a[0])), a[1..], b);
      if a[1..] == [] {
        assert LastPair(prev, a) == Some(PairOf(a[0]));
      }
    } else {
      assert a + b == b;
    }
  }

  /** Whatever the starts, stops and state changes, the posts never carry
      the same pair twice in a row, and the first differs from the pair last
      sent before; the watcher's last-sent pair is the last one posted. */
  lemma {:induction false} RunFresh(w: Watcher, live: nat, cmds: seq<Command>)
    ensures FreshFrom(w.lastSent, Run(w, live, cmds).2)
    ensures Run(w, live, cmds).0.lastSent == LastPair(w.lastSent, Run(w, live, cmds).2)
    decreases |cmds|
  {
    if cmds != [] {
      match cmds[0]
      case StartCmd =>
        RunFresh(Start(w), if Ready(w) then live + 1 else live, cmds[1..]);
      case StopCmd =>
        var (w1, cancelled) := Stop(w);
        RunFresh(w1, if cancelled.Some? && live > 0 then live - 1 else live, cmds[1..]);
      case Notify(e) =>
        var (w1, ps) := Dispatch(w, e, live);
        if live == 0 {
          RunFresh(w1, live, cmds[1..]);
          assert ps == [] && w1 == w;
          assert ps + Run(w1, live, cmds[1..]).2 == Run(w1, live, cmds[1..]).2;
        } else {
          DispatchPostsOnce(w, e, live);
          var f := Feed(w, [e]);
          assert Feed(w, [e]) == (w1, ps) by {
            assert [e][1..] == [];
          }
          RunFresh(w1, live, cmds[1..]);
          FreshFromAppend(w.lastSent, ps, Run(w1, live, cmds[1..]).2);
        }
    }
  }

  /** A watcher that cannot start, and holds no subscription, never posts,
      whatever it is told. */
  lemma {:induction false} NotReadyNeverPosts(w: Watcher, cmds: seq<Command>)
    requires !Ready(w) && w.unsub.None?
    ensures Run(w, 0, cmds).2 == []
    ensures Run(w, 0, cmds).1 == 0
    decreases |cmds|
  {
    if cmds != [] {
      NotReadyNeverPosts(w, cmds[1..]);
    }
  }

  /** A stopped watcher with no live subscription posts nothing until it is
      started again. */
  lemma {:induction false} StoppedStaysSilent(w: Watcher, cmds: seq<Command>)
    requires w.unsub.None?
    requires forall i :: 0 <= i < |cmds| ==> !cmds[i].StartCmd?
    ensures Run(w, 0, cmds).2 == []
    decreases |cmds|
  {
    if cmds != [] {
      StoppedStaysSilent(w, cmds[1..]);
      match cmds[0]
      case StopCmd =>
        assert Stop(w) == (w, None);
      case Notify(e) =>
        assert Dispatch(w, e, 0) == (w, []);
    }
  }

  /** Started once and then stopped, a fresh watcher posts nothing more. */
  lemma StartStopSilences(d: Device, cmds: seq<Command>)
    requires forall i :: 0 <= i < |cmds| ==> !cmds[i].StartCmd?
    ensures Run(NewWatcher(d), 0, [StartCmd, StopCmd] + cmds).2 == []
  {
    var w := NewWatcher(d);
    var w1 := Start(w);
    var live := if Ready(w) then 1 else 0;
    assert ([StartCmd, StopCmd] + cmds)[1..] == [StopCmd] + cmds;
    assert ([StopCmd] + cmds)[1..] == cmds;
    StoppedStaysSilent(Stop(w1).0, cmds);
  }

  /** Starting is not idempotent: a second start replaces the handle without
      cancelling the first subscription, so after a stop the watcher keeps
      posting new positions. */
  lemma DoubleStartLeaks(d: Device, e: Event)
    requires Ready(NewWatcher(d)) && Position(e).Some?
    ensures Run(NewWatcher(d), 0, [StartCmd, StartCmd, StopCmd]).1 == 1
    ensures Run(NewWatcher(d), 0, [StartCmd, StartCmd, StopCmd, Notify(e)]).2
         == [Post(Position(e).value.0, Position(e).value.1, e.ts)]
  {
    var w := NewWatcher(d);
    assert [StartCmd, StartCmd, StopCmd][1..] == [StartCmd, StopCmd];
    assert [StartCmd, StopCmd][1..] == [StopCmd];
    assert [StartCmd, StartCmd, StopCmd, Notify(e)][1..] == [StartCmd, StopCmd, Notify(e)];
    assert [StartCmd, StopCmd, Notify(e)][1..] == [StopCmd, Notify(e)];
    assert [StopCmd, Notify(e)][1..] == [Notify(e)];
    var w3 := Stop(Start(Start(w))).0;
    var post := Post(Position(e).value.0, Position(e).value.1, e.ts);
    var w1 := Start(w);
    var w2 := Start(w1);
    assert Ready(w1) && w2.unsub.Some?;
    assert Run(w, 0, [StartCmd, StartCmd, StopCmd, Notify(e)]) == Run(w1, 1, [StartCmd, StopCmd, Notify(e)]);
    assert Run(w1, 1, [StartCmd, StopCmd, Notify(e)]) == Run(w2, 2, [StopCmd, Notify(e)]);
    assert Run(w2, 2, [StopCmd, Notify(e)]) == Run(w3, 1, [Notify(e)]);
    assert Dispatch(w3, e, 1).1 == [post] by {
      assert w3.lastSent.None?;
      assert StateChanged(w3, e).1 == Some(post);
      assert Dispatch(w3, e, 1).1 == OptionToSeq(Some(post)) + [];
    }
    assert [Notify(e)][1..] == [];
    var w4 := Dispatch(w3, e, 1).0;
    assert Run(w3, 1, [Notify(e)]).2 == [post] + Run(w4, 1, []).2;
  }

  /** The watchers of each loaded config entry, keyed by entry id. */
  type Registry = map<string, seq<Watcher>>

  /** One watcher per device, in order, each built and then started. */
  function StartAll(devices: seq<Device>): (ws: seq<Watcher>)
    ensures |ws| == |devices|
    ensures forall i :: 0 <= i < |ws| ==> ws[i] == Start(NewWatcher(devices[i]))
    decreases |devices|
  {
    if devices == [] then []
    else [Start(NewWatcher(devices[0]))] + StartAll(devices[1..])
  }

  /** Setting up an entry: its device list, read with the options-then-data
      fallback, becomes its started watchers in the registry. */
  function SetupEntry(reg: Registry, entry: Entry): (r: Registry)
    ensures r.Keys == reg.Keys + {entry.entryId}
    ensures |r[entry.entryId]| == |EntryDevices(entry)|
    ensures forall i :: 0 <= i < |r[entry.entryId]| ==>
      r[entry.entryId][i] == Start(NewWatcher(EntryDevices(entry)[i]))
    ensures forall id :: id in reg && id != entry.entryId ==> r[id] == reg[id]
  {
    reg[entry.entryId := StartAll(EntryDevices(entry))]
  }

  /** The handles the watchers hold, in order. */
  function HeldHandles(ws: seq<Watcher>): seq<Handle>
    decreases |ws|
  {
    if ws == [] then []
    else if ws[0].unsub.Some? then [ws[0].unsub.value] + HeldHandles(ws[1..])
    else HeldHandles(ws[1..])
  }

  /** A handle is among the held ones exactly when some watcher holds it. */
  lemma {:induction false} HeldHandlesSpec(ws: seq<Watcher>)
    ensures |HeldHandles(ws)| <= |ws|
    ensures forall i :: 0 <= i < |ws| && ws[i].unsub.Some? ==> ws[i].unsub.value in HeldHandles(ws)
    ensures forall h :: h in HeldHandles(ws) ==> exists i :: 0 <= i < |ws| && ws[i].unsub == Some(h)
    decreases |ws|
  {
    if ws != [] {
      HeldHandlesSpec(ws[1..]);
      assert forall i :: 1 <= i < |ws| ==> ws[i] == ws[1..][i - 1];
      forall h | h in HeldHandles(ws)
        ensures exists i :: 0 <= i < |ws| && ws[i].unsub == Some(h)
      {
        if h in HeldHandles(ws[1..]) {
          var j :| 0 <= j < |ws[1..]| && ws[1..][j].unsub == Some(h);
          assert ws[j + 1].unsub == Some(h);
        } else {
          assert ws[0].unsub == Some(h);
        }
      }
    }
  }

  /** Stopping the first watcher and then the rest stops them all. */
  lemma StoppedCons(ws: seq<Watcher>, rest: seq<Watcher>)
    requires ws != [] && |rest| == |ws| - 1
    requires forall i :: 0 <= i < |rest| ==> rest[i] == ws[1..][i].(unsub := None)
    ensures forall i :: 0 <= i < |ws| ==> ([ws[0].(unsub := None)] + rest)[i] == ws[i].(unsub := None)
  {
    forall i | 0 <= i < |ws|
      ensures ([ws[0].(unsub := None)] + rest)[i] == ws[i].(unsub := None)
    {
      if i > 0 {
        assert ws[i] == ws[1..][i - 1];
      }
    }
  }

  /** Stops each watcher in turn; returns the stopped watchers and the
      handles that were cancelled. */
  function StopAll(ws: seq<Watcher>): (r: (seq<Watcher>, seq<Handle>))
    ensures |r.0| == |ws|
    ensures forall i :: 0 <= i < |ws| ==> r.0[i] == ws[i].(unsub := None)
    ensures |r.1| <= |ws|
    ensures forall i :: 0 <= i < |ws| && ws[i].unsub.Some? ==> ws[i].unsub.value in r.1
    ensures forall h :: h in r.1 ==> exists i :: 0 <= i < |ws| && ws[i].unsub == Some(h)
    ensures r.1 == HeldHandles(ws)
    decreases |ws|
  {
    if ws == [] then ([], [])
    else
      var (w, c) := Stop(ws[0]);
      var (rest, cs) := StopAll(ws[1..]);
      var stopped := [w] + rest;
      var cancelled := OptionToSeq(c) + cs;
      StoppedCons(ws, rest);
      HeldHandlesSpec(ws);
      (stopped, cancelled)
  }

  /** Unloading an entry: removes it from the registry and stops each of its
      watchers. An entry that is not loaded stops nothing. */
  function UnloadEntry(reg: Registry, entryId: string): (r: (Registry, seq<Watcher>, seq<Handle>))
    ensures r.0 == reg - {entryId}
    ensures entryId !in reg ==> r.1 == [] && r.2 == []
    ensures entryId in reg ==> |r.1| == |reg[entryId]|
    ensures entryId in reg ==> forall i :: 0 <= i < |r.1| ==> r.1[i] == reg[entryId][i].(unsub := None)
    ensures entryId in reg ==> r.2 == HeldHandles(reg[entryId])
    ensures forall i :: 0 <= i < |r.1| ==> r.1[i].unsub.None?
  {
    var ws := if entryId in reg then reg[entryId] else [];
    var (stopped, cancelled) := StopAll(ws);
    (reg - {entryId}, stopped, cancelled)
  }

  /** Setting up an entry and unloading it again leaves the registry as it
      was without that entry, returns every watcher to its freshly built
      state, and cancels the subscription of every device that started. */
  lemma SetupUnloadRoundTrip(reg: Registry, entry: Entry)
    ensures var (r, stopped, cancelled) := UnloadEntry(SetupEntry(reg, entry), entry.entryId);
      && r == reg - {entry.entryId}
      && |stopped| == |EntryDevices(entry)|
      && (forall i :: 0 <= i < |stopped| ==> stopped[i] == NewWatcher(EntryDevices(entry)[i]))
      && (forall i :: 0 <= i < |stopped| && Ready(NewWatcher(EntryDevices(entry)[i])) ==>
            Handle([EntryDevices(entry)[i].entityId.value]) in cancelled)
  {
    var devices := EntryDevices(entry);
    var setup := SetupEntry(reg, entry);
    var ws := setup[entry.entryId];
    assert setup - {entry.entryId} == reg - {entry.entryId};
    forall i | 0 <= i < |devices|
      ensures StopAll(ws).0[i] == NewWatcher(devices[i])
    {
      StartStopRestores(devices[i]);
    }
  }

  /** A device the form validator accepts, with a key pattern that rejects
      the empty key, starts its watcher unless it is disabled. */
  lemma AcceptedDeviceStarts(d: Device, keyMatches: string -> bool)
    requires Acceptable(d, keyMatches) && !keyMatches("") && d.enabled != Some(false)
    ensures Ready(NewWatcher(d))
    ensures Start(NewWatcher(d)).unsub == Some(Handle([d.entityId.value]))
  {
    StripUnpadded("");
  }

  /** The validator judges the trimmed server URL, but the record keeps the
      URL as entered and the watcher posts to that: putting a space in front
      of an accepted URL keeps it accepted, and the endpoint then starts
      with the space. */
  lemma PaddedUrlAccepted(d: Device, keyMatches: string -> bool)
    requires Acceptable(d, keyMatches) && d.serverUrl.Some?
    ensures var padded := d.(serverUrl := Some([' '] + d.serverUrl.value));
      && Acceptable(padded, keyMatches)
      && IngestUrl(padded.serverUrl.value)[0] == ' '
  {
    var url := [' '] + d.serverUrl.value;
    StripLeadingSpace(' ', d.serverUrl.value);
    var base := RStripSlashes(url);
    if base == [] {
      assert false;
    }
    assert IngestUrl(url)[0] == base[0] == url[0];
  }
}
