/** APPEND, COPY and MOVE as steps of the folder's runs, so that UID safety covers them. */
module Walks {
  import opened Text
  import opened Flags
  import opened UidList
  import opened Maildir
  import opened Mailboxes
  import opened UidSafety
  import opened Move

  // ----- putting walks together -----

  lemma Extend(ws: seq<World>, w': World)
    requires Walk(ws) && Steps(ws[|ws| - 1], w')
    ensures Walk(ws + [w'])
  {
    var us := ws + [w'];
    forall k | 0 <= k < |us| - 1 ensures StepsAt(us, k) {
      if k < |ws| - 1 { assert StepsAt(ws, k); }
    }
  }

  lemma Join(ws: seq<World>, us: seq<World>) returns (vs: seq<World>)
    requires Walk(ws) && Walk(us) && ws[|ws| - 1] == us[0]
    ensures Walk(vs) && vs[0] == ws[0] && vs[|vs| - 1] == us[|us| - 1]
  {
    vs := ws + us[1..];
    forall k | 0 <= k < |vs| - 1 ensures StepsAt(vs, k) {
      if k < |ws| - 1 {
        assert StepsAt(ws, k);
      } else {
        assert StepsAt(us, k - (|ws| - 1));
      }
    }
  }

  /** The folder and one mailbox object as the world has them. */
  ghost predicate At(w: World, f: Folder, box: nat, v: View) { w.folder == f && ViewAt(w, box) == v }

  /** Every mailbox object but one is as it was. */
  ghost predicate OthersKept(w: World, w': World, box: nat) {
    forall other :: other != box ==> ViewAt(w', other) == ViewAt(w, other)
  }

  // ----- one step each -----

  lemma PlaceStep(w: World, name: string, flags: string, file: File) returns (w': World)
    requires Deliverable(name) && name !in w.used
    ensures Steps(w, w') && w'.used == w.used + {name} && w'.boxes == w.boxes
    ensures w'.folder == w.folder.(files := w.folder.files[PlacedPath(name, flags) := file])
  {
    w' := w.(used := w.used + {name}, folder := w.folder.(files := w.folder.files[PlacedPath(name, flags) := file]));
    assert Next(w, Action.Place(name, file.data, file.mtime, flags), w');
  }

  lemma RefreshedStep(w: World, box: nat, minted: nat, fault: Fault, f': Folder, v': View, ok: bool) returns (w': World)
    requires RefreshAllowed(w.folder, minted, fault) && Refreshed(w.folder, ViewAt(w, box), minted, fault, f', v', ok)
    ensures Steps(w, w') && At(w', f', box, v') && w'.used == w.used
    ensures w'.boxes == w.boxes[box := v']
  {
    hide Refreshed, RefreshAllowed, Pairs;
    w' := w.(folder := f', boxes := w.boxes[box := v'], given := if ok then w.given + Pairs(v') else w.given);
    assert RefreshStep(w, box, minted, fault, w', ok);
    assert Next(w, Action.Refresh(box, minted, fault), w');
  }

  lemma SnapStep(w: World, box: nat, snaps: seq<Snap>, k: nat) returns (w': World)
    requires k < |snaps| - 1 && SnapAt(snaps, k) && At(w, snaps[k].folder, box, snaps[k].view)
    ensures Steps(w, w') && At(w', snaps[k + 1].folder, box, snaps[k + 1].view) && w'.used == w.used
  {
    var s, s' := snaps[k], snaps[k + 1];
    w' := w.(folder := s'.folder, boxes := w.boxes[box := s'.view]);
    if FlagStep(s, s') {
      var i: nat, flags: string, ok: bool :|
        i < |s.view.messages| && FlagsSet(s.folder, s.view, i, flags, s'.folder, s'.view, ok);
      FlagNext(w, box, i, flags, s'.folder, s'.view, ok);
    } else {
      var seqs: seq<nat>, ok: bool :| Expunged(s.folder, s.view, s'.folder, s'.view, seqs, ok);
      ExpungeNext(w, box, s'.folder, s'.view, seqs, ok);
    }
  }

  lemma FlagNext(w: World, box: nat, i: nat, flags: string, f': Folder, v': View, ok: bool)
    requires i < |ViewAt(w, box).messages| && FlagsSet(w.folder, ViewAt(w, box), i, flags, f', v', ok)
    ensures Steps(w, w.(folder := f', boxes := w.boxes[box := v']))
  {
    var w' := w.(folder := f', boxes := w.boxes[box := v']);
    hide FlagsSet;
    assert BoxStep(w, box, w');
    assert FlagsSet(w.folder, ViewAt(w, box), i, flags, w'.folder, w'.boxes[box], ok);
    assert Next(w, Action.SetFlags(box, i, flags), w');
  }

  lemma ExpungeNext(w: World, box: nat, f': Folder, v': View, seqs: seq<nat>, ok: bool)
    requires Expunged(w.folder, ViewAt(w, box), f', v', seqs, ok)
    ensures Steps(w, w.(folder := f', boxes := w.boxes[box := v']))
  {
    var w' := w.(folder := f', boxes := w.boxes[box := v']);
    hide Expunged;
    assert BoxStep(w, box, w');
    assert Expunged(w.folder, ViewAt(w, box), w'.folder, w'.boxes[box], seqs, ok);
    assert Next(w, Action.Expunge(box), w');
  }

  // ----- Append -----

  /** Both of its Refreshes, or the one it gets to, may happen in a run. */
  ghost predicate AppendAllowed(
    f: Folder, name: string, flags: string, file: File, delivers: bool, renames: bool, minted: nat, fault: Fault)
  {
    PlacedOk(flags, delivers, renames) ==>
      RefreshAllowed(f.(files := PlacedFiles(f.files, name, flags, file, delivers, renames)), minted, fault)
  }

  /** One call of Append is a walk: nothing, a delivery into new/, or a placed message and a Refresh. */
  lemma AppendIsWalk(
    w: World, box: nat, name: string, flags: string, file: File, delivers: bool, renames: bool, minted: nat, fault: Fault,
    f': Folder, v': View, ok: bool) returns (ws: seq<World>)
    requires Deliverable(name) && name !in w.used && AppendAllowed(w.folder, name, flags, file, delivers, renames, minted, fault)
    requires Appended(w.folder, ViewAt(w, box), name, flags, file, delivers, renames, minted, fault, f', v', ok)
    ensures Walk(ws) && ws[0] == w && At(ws[|ws| - 1], f', box, v') && ws[|ws| - 1].used <= w.used + {name}
    ensures OthersKept(w, ws[|ws| - 1], box)
  {
    hide Refreshed, RefreshAllowed, Steps, Deliverable;
    if !delivers {
      ws := [w];
    } else if !PlacedOk(flags, delivers, renames) {
      var u := PlaceStep(w, name, "", file);
      Extend([w], u);
      ws := [w, u];
      assert ws == [w] + [u];
    } else {
      var u := PlaceStep(w, name, flags, file);
      assert ViewAt(u, box) == ViewAt(w, box);
      var x := RefreshedStep(u, box, minted, fault, f', v', ok);
      Extend([w], u);
      Extend([w] + [u], x);
      ws := [w] + [u] + [x];
    }
  }

  // ----- CopyTo -----

  ghost predicate CopyAllowed(f: Folder, m: Message, env: Env, c: Copying) {
    && RefreshAllowed(f, env.minted, env.openFault)
    && forall data :: AppendAllowed(
         c.begun, env.name, m.flags, File(data, m.internal), env.delivers, env.renames, env.minted2, env.fault)
  }

  /** One call of CopyTo is a walk of the destination, with a mailbox object of its own. */
  lemma CopyIsWalk(w: World, box: nat, m: Message, env: Env, c: Copying, f': Folder) returns (ws: seq<World>)
    requires box !in w.boxes && Deliverable(env.name) && env.name !in w.used
    requires CopyStep(m, w.folder, env, c, f') && CopyAllowed(w.folder, m, env, c)
    ensures Walk(ws) && ws[0] == w && ws[|ws| - 1].folder == f' && ws[|ws| - 1].used <= w.used + {env.name}
    ensures OthersKept(w, ws[|ws| - 1], box)
  {
    var source: map<Path, File>, ok: bool :| CopiedTo(source, m, w.folder, env, c, f', ok);
    if PathOf(m) !in source {
      ws := [w];
    } else {
      var isOpen :| OpenedFor(w.folder, env, c, isOpen) && AppendedAfter(source[PathOf(m)].data, m, env, c, isOpen, f', ok);
      hide AppendedAfter, CopyAllowed, Steps, Deliverable, Walk, OpenedFor;
      ws := OpenIsWalk(w, box, source[PathOf(m)].data, m, env, c, isOpen, f', ok);
    }
  }

  lemma OpenIsWalk(
    w: World, box: nat, data: string, m: Message, env: Env, c: Copying, isOpen: bool, f': Folder, ok: bool)
    returns (ws: seq<World>)
    requires box !in w.boxes && Deliverable(env.name) && env.name !in w.used && CopyAllowed(w.folder, m, env, c)
    requires OpenedFor(w.folder, env, c, isOpen) && AppendedAfter(data, m, env, c, isOpen, f', ok)
    ensures Walk(ws) && ws[0] == w && ws[|ws| - 1].folder == f' && ws[|ws| - 1].used <= w.used + {env.name}
    ensures OthersKept(w, ws[|ws| - 1], box)
  {
    hide Refreshed, RefreshAllowed, Steps, Deliverable, Appended, AppendAllowed;
    var u := RefreshedStep(w, box, env.minted, env.openFault, c.begun, c.view, isOpen);
    Extend([w], u);
    ws := [w] + [u];
    if isOpen {
      var us := AppendIsWalk(u, box, env.name, m.flags, File(data, m.internal),
                             env.delivers, env.renames, env.minted2, env.fault, f', c.after, ok);
      ws := Join(ws, us);
    }
  }

  // ----- MOVE -----

  ghost predicate CopiesAllowed(messages: seq<Message>, selected: seq<nat>, envs: seq<Env>, cs: Copies)
    requires Positions(selected, |messages|) && CopyTrace(messages, selected, envs, cs)
  {
    forall k :: 0 <= k < |cs.steps| ==> CopyAllowed(cs.folders[k], messages[selected[k]], envs[k], cs.steps[k])
  }

  /** The names Deliver makes are new to the world, and each is used once. */
  ghost predicate NamesUnused(envs: seq<Env>, used: set<string>) {
    && (forall k :: 0 <= k < |envs| ==> Deliverable(envs[k].name) && envs[k].name !in used)
    && forall j, k :: 0 <= j < k < |envs| ==> envs[j].name != envs[k].name
  }

  function NamesOf(envs: seq<Env>, n: nat): set<string>
    requires n <= |envs|
  {
    set k | 0 <= k < n :: envs[k].name
  }

  /** A mailbox object that is not open in the world. */
  lemma FreeBox(w: World, not: nat) returns (box: nat)
    ensures box !in w.boxes && box != not
  {
    box := LargestBox(w.boxes.Keys) + 1 + not;
    assert forall b :: b in w.boxes.Keys ==> b <= LargestBox(w.boxes.Keys);
  }

  ghost function LargestBox(s: set<nat>): (n: nat)
    ensures forall b :: b in s ==> b <= n
  {
    if s == {} then 0
    else
      var b :| b in s;
      var n := LargestBox(s - {b});
      assert forall c :: c in s ==> c == b || c in s - {b};
      if b > n then b else n
  }

  /** The copies of a command are a walk of the destination that leaves one mailbox object alone. */
  lemma {:induction false} CopiesAreWalk(
    w: World, keep: nat, messages: seq<Message>, selected: seq<nat>, envs: seq<Env>, cs: Copies, n: nat)
    returns (ws: seq<World>)
    requires Positions(selected, |messages|) && CopyTrace(messages, selected, envs, cs)
    requires CopiesAllowed(messages, selected, envs, cs) && NamesUnused(envs, w.used)
    requires n <= |cs.steps| && w.folder == cs.folders[0]
    ensures Walk(ws) && ws[0] == w && ws[|ws| - 1].folder == cs.folders[n]
    ensures ViewAt(ws[|ws| - 1], keep) == ViewAt(w, keep) && ws[|ws| - 1].used <= w.used + NamesOf(envs, n)
  {
    hide Steps, Walk, CopyAllowed, CopyStep, Deliverable;
    if n == 0 {
      ws := [w];
      OneWorld(w);
    } else {
      var front := CopiesAreWalk(w, keep, messages, selected, envs, cs, n - 1);
      assert CopyAt(messages, selected, envs, cs, n - 1);
      WalkNotEmpty(front);
      var u := front[|front| - 1];
      var box := FreeBox(u, keep);
      assert envs[n - 1].name !in u.used;
      var us := CopyIsWalk(u, box, messages[selected[n - 1]], envs[n - 1], cs.steps[n - 1], cs.folders[n]);
      WalkNotEmpty(us);
      ws := Join(front, us);
      WalkNotEmpty(ws);
      assert NamesOf(envs, n) == NamesOf(envs, n - 1) + {envs[n - 1].name};
    }
  }

  lemma OneWorld(w: World)
    ensures Walk([w])
  {
  }

  lemma WalkNotEmpty(ws: seq<World>)
    requires Walk(ws)
    ensures |ws| > 0
  {
  }

  /** Marking and expunging are a walk of the source. */
  lemma {:induction false} SnapsAreWalk(w: World, box: nat, snaps: seq<Snap>, n: nat) returns (ws: seq<World>)
    requires SnapTrace(snaps) && n < |snaps| && At(w, snaps[0].folder, box, snaps[0].view)
    ensures Walk(ws) && ws[0] == w && At(ws[|ws| - 1], snaps[n].folder, box, snaps[n].view)
  {
    hide Steps, FlagStep, ExpungeStep;
    if n == 0 {
      ws := [w];
    } else {
      var front := SnapsAreWalk(w, box, snaps, n - 1);
      assert SnapAt(snaps, n - 1);
      var w' := SnapStep(front[|front| - 1], box, snaps, n - 1);
      Extend(front, w');
      ws := front + [w'];
    }
  }

  /** What MoveMessages goes through, from a world with its mailbox object: a walk of the folder it moves within. */
  lemma MoveWithinIsWalk(
    w: World, box: nat, messages: seq<Message>, selected: seq<nat>, envs: seq<Env>, cs: Copies, snaps: seq<Snap>)
    returns (ws: seq<World>)
    requires Positions(selected, |messages|) && CopyTrace(messages, selected, envs, cs)
    requires CopiesAllowed(messages, selected, envs, cs) && NamesUnused(envs, w.used)
    requires w.folder == cs.folders[0] && |snaps| > 0 && SnapTrace(snaps)
    requires snaps[0] == Snap(cs.folders[|cs.steps|], ViewAt(w, box))
    ensures Walk(ws) && ws[0] == w && At(ws[|ws| - 1], snaps[|snaps| - 1].folder, box, snaps[|snaps| - 1].view)
  {
    hide Steps, CopyAllowed, CopyStep, SnapTrace, Walk;
    var front := CopiesAreWalk(w, box, messages, selected, envs, cs, |cs.steps|);
    WalkNotEmpty(front);
    var us := SnapsAreWalk(front[|front| - 1], box, snaps, |snaps| - 1);
    WalkNotEmpty(us);
    ws := Join(front, us);
    WalkNotEmpty(ws);
  }

  /**
    So a message of the source that the move leaves alone keeps its UID: any
    pair of its base name reported later on the walk, or on any walk after it,
    is the pair reported before.
   */
  lemma MoveKeepsUid(
    w: World, box: nat, messages: seq<Message>, selected: seq<nat>, envs: seq<Env>, cs: Copies, snaps: seq<Snap>,
    later: seq<World>, j: nat, b: string, uid: nat)
    returns (ws: seq<World>)
    requires Inv(w) && (b, uid) in w.given && Walk(later) && j < |later|
    requires Positions(selected, |messages|) && CopyTrace(messages, selected, envs, cs)
    requires CopiesAllowed(messages, selected, envs, cs) && NamesUnused(envs, w.used)
    requires w.folder == cs.folders[0] && |snaps| > 0 && SnapTrace(snaps)
    requires snaps[0] == Snap(cs.folders[|cs.steps|], ViewAt(w, box))
    ensures Walk(ws) && ws[0] == w && At(ws[|ws| - 1], snaps[|snaps| - 1].folder, box, snaps[|snaps| - 1].view)
    ensures later[0] == ws[|ws| - 1] ==> forall n :: (b, n) in later[j].given ==> n == uid
  {
    hide Inv, Steps, CopyAllowed, CopyStep, SnapTrace, CopyTrace, CopiesAllowed, NamesUnused, Disk;
    ws := MoveWithinIsWalk(w, box, messages, selected, envs, cs, snaps);
    if later[0] == ws[|ws| - 1] {
      var all := Join(ws, later[..j + 1]) by { PrefixWalk(later, j); }
      WalkIsSafe(all, 0, |all| - 1);
      forall n | (b, n) in later[j].given ensures n == uid {
        var g, h := (b, uid), (b, n);
        assert g in all[0].given && h in all[|all| - 1].given && g.0 == h.0;
      }
    }
  }

  lemma PrefixWalk(ws: seq<World>, j: nat)
    requires Walk(ws) && j < |ws|
    ensures Walk(ws[..j + 1])
  {
    var us := ws[..j + 1];
    forall k | 0 <= k < |us| - 1 ensures StepsAt(us, k) { assert StepsAt(ws, k); }
  }
}
