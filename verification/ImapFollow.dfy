/** When a client can follow what other sessions do to its mailbox. */
module ImapFollow {
  import opened Text
  import opened Flags
  import opened UidList
  import opened Maildir
  import opened UidSafety
  import opened ImapView

  /** Some file still has this base name. */
  ghost predicate StillThere(files: map<Path, File>, b: string) { exists p :: p in files && Base(p) == b }

  // ----- where files come from -----

  /** A file under a name used before comes from a file under that name. */
  ghost predicate ComesFrom(w: World, w': World) {
    forall p :: p in w'.folder.files && Base(p) in w.used ==> StillThere(w.folder.files, Base(p))
  }

  lemma PlaceComesFrom(w: World, a: Action, w': World)
    requires a.Place? && Next(w, a, w')
    ensures ComesFrom(w, w') && w.used <= w'.used
  {
    PlacedPathFacts(a.name, a.flags);
    forall p | p in w'.folder.files && Base(p) in w.used ensures StillThere(w.folder.files, Base(p)) {
      assert p in w.folder.files;
    }
  }

  lemma FlagsComeFrom(w: World, a: Action, w': World)
    requires Inv(w) && a.SetFlags? && Next(w, a, w')
    ensures ComesFrom(w, w') && w'.used == w.used
  {
    var m := ViewAt(w, a.box).messages[a.i];
    var from, to := PathOf(m), FlaggedPath(m, a.flags);
    if from in w.folder.files { RenameKeepsFiles(w.folder.files, w.used, from, a.flags); }
    hide Inv, FilesInv, Base;
    forall p | p in w'.folder.files && Base(p) in w.used ensures StillThere(w.folder.files, Base(p)) {
      assert p in w.folder.files || (p == to && from in w.folder.files && Base(from) == Base(p));
    }
  }

  lemma SubsetComesFrom(w: World, w': World)
    requires w'.used == w.used && w'.folder.files.Keys <= w.folder.files.Keys
    ensures ComesFrom(w, w')
  {
    forall p | p in w'.folder.files && Base(p) in w.used ensures StillThere(w.folder.files, Base(p)) {
      assert p in w.folder.files.Keys;
    }
  }

  lemma StepComesFrom(w: World, w': World)
    requires Inv(w) && Steps(w, w')
    ensures ComesFrom(w, w') && w.used <= w'.used
  {
    var a :| Next(w, a, w');
    match a
    case Place(_, _, _, _) => PlaceComesFrom(w, a, w');
    case SetFlags(_, _, _) => FlagsComeFrom(w, a, w');
    case Refresh(_, _, _) => RefreshGivesLater(w, a, w'); SubsetComesFrom(w, w');
    case Expunge(_) => SubsetComesFrom(w, w');
  }

  lemma ComesFromTrans(w: World, u: World, w': World)
    requires ComesFrom(w, u) && ComesFrom(u, w') && w.used <= u.used
    ensures ComesFrom(w, w')
  {
    forall p | p in w'.folder.files && Base(p) in w.used ensures StillThere(w.folder.files, Base(p)) {
      assert StillThere(u.folder.files, Base(p));
      var q :| q in u.folder.files && Base(q) == Base(p);
    }
  }

  lemma {:induction false} WalkComesFrom(ws: seq<World>, k: nat)
    requires Walk(ws) && Inv(ws[0]) && k < |ws|
    ensures ComesFrom(ws[0], ws[k]) && ws[0].used <= ws[k].used
  {
    hide Inv, Next, Steps, Disk;
    if k > 0 {
      WalkComesFrom(ws, k - 1);
      WalkFacts(ws, 0, k - 1);
      assert StepsAt(ws, k - 1);
      StepComesFrom(ws[k - 1], ws[k]);
      ComesFromTrans(ws[0], ws[k - 1], ws[k]);
    }
  }

  // ----- the old snapshot and the new one -----

  /** Nothing the snapshot v shows has been removed. */
  ghost predicate AllStillThere(files: map<Path, File>, v: View) {
    forall i :: 0 <= i < |v.messages| ==> StillThere(files, BaseName(v.messages[i].name))
  }

  /** From w, where v was taken, to w', where a Refresh showed v'. */
  ghost predicate Later(w: World, v: View, w': World, v': View) {
    && Inv(w) && SyncedIn(w, v) && Inv(w') && SyncedIn(w', v') && GivesLater(w, w') && w.given <= w'.given
    && ComesFrom(w, w') && forall p :: p in w'.folder.files ==> InView(v', Base(p))
  }

  lemma SameUid(w': World, v': View, b: string, uid: nat)
    requires Inv(w') && SyncedIn(w', v') && (b, uid) in w'.given && InView(v', b)
    ensures uid in Uids(v'.messages)
  {
    InvMeans(w');
    hide Inv, Disk;
    var k :| 0 <= k < |v'.messages| && BaseName(v'.messages[k].name) == b;
    assert Shown(w'.folder.files, w'.given, v', v'.messages[k]);
    assert (b, v'.messages[k].uid) in w'.given;
    assert Uids(v'.messages)[k] == uid;
  }

  lemma OldShown(w: World, v: View, w': World, v': View, i: nat)
    requires Later(w, v, w', v') && i < |v.messages| && StillThere(w'.folder.files, BaseName(v.messages[i].name))
    ensures v.messages[i].uid in Uids(v'.messages)
  {
    hide Inv, Disk, OthersLater;
    var b := BaseName(v.messages[i].name);
    assert Shown(w.folder.files, w.given, v, v.messages[i]);
    var p :| p in w'.folder.files && Base(p) == b;
    SameUid(w', v', b, v.messages[i].uid);
  }

  lemma GivenAreUsed(w: World, g: (string, nat))
    requires Inv(w) && g in w.given
    ensures g.0 in w.used
  {
  }

  lemma NewLater(w: World, v: View, w': World, v': View, k: nat)
    requires Later(w, v, w', v') && k < |v'.messages|
    ensures v'.messages[k].uid in Uids(v.messages) || v'.messages[k].uid >= v.next
  {
    hide Inv, Disk;
    var m := v'.messages[k];
    assert Shown(w'.folder.files, w'.given, v', m);
    var g := (BaseName(m.name), m.uid);
    if g in w.given && m.uid < v.next {
      GivenAreUsed(w, g);
      assert Base(PathOf(m)) == g.0 && StillThere(w.folder.files, g.0);
      var p :| p in w.folder.files && Base(p) == g.0;
      OldGivenShown(w, v, g, p);
    }
  }

  lemma ThereIsPrefix(w: World, v: View, w': World, v': View)
    requires Later(w, v, w', v') && AllStillThere(w'.folder.files, v)
    ensures Uids(v.messages) <= Uids(v'.messages)
  {
    var older, newer := Uids(v.messages), Uids(v'.messages);
    forall u | u in older ensures u in newer && u < v.next {
      var i :| 0 <= i < |v.messages| && v.messages[i].uid == u;
      assert Shown(w.folder.files, w.given, v, v.messages[i]);
      OldShown(w, v, w', v', i);
    }
    forall u | u in newer && u !in older ensures u >= v.next {
      var k :| 0 <= k < |v'.messages| && v'.messages[k].uid == u;
      NewLater(w, v, w', v', k);
    }
    hide Inv, Disk, Shown, OthersLater, CurrentNext, ComesFrom, GivesLater;
    AscendingPrefix(older, newer, v.next, |older|);
    assert older[..|older|] == older;
  }

  lemma PrefixIsThere(w: World, v: View, w': World, v': View, i: nat)
    requires Later(w, v, w', v') && Uids(v.messages) <= Uids(v'.messages) && i < |v.messages|
    ensures StillThere(w'.folder.files, BaseName(v.messages[i].name))
  {
    InvMeans(w');
    hide Inv, Disk, OthersLater, ComesFrom;
    assert Uids(v'.messages)[i] == Uids(v.messages)[i];
    var m, m' := v.messages[i], v'.messages[i];
    assert Shown(w.folder.files, w.given, v, m) && Shown(w'.folder.files, w'.given, v', m');
    assert (BaseName(m.name), m.uid) in w'.given && (BaseName(m'.name), m.uid) in w'.given;
    assert Base(PathOf(m')) == BaseName(m.name);
  }

  lemma WalkIsLater(ws: seq<World>, v: View, box: nat, minted: nat, w': World)
    requires Walk(ws) && Inv(ws[0]) && SyncedIn(ws[0], v)
    requires Next(ws[|ws| - 1], Refresh(box, minted, NoFault), w')
    ensures Later(ws[0], v, w', ViewAt(w', box)) && w'.folder.files == ws[|ws| - 1].folder.files
  {
    hide Inv, SyncedIn, Disk, InView, Steps;
    var n, u := |ws| - 1, ws[|ws| - 1];
    WalkFacts(ws, 0, n);
    WalkGivesLater(ws, 0, n);
    WalkComesFrom(ws, n);
    RefreshIsStep(u, box, minted, w');
    StepComesFrom(u, w');
    StepContinues(u, w');
    StepGivesLater(u, w');
    StillLater(ws[0], u, w');
    ComesFromTrans(ws[0], u, w');
    RefreshShowsAll(u, box, minted, w');
    RefreshGivesLater(u, Refresh(box, minted, NoFault), w');
  }

  lemma RefreshIsStep(w: World, box: nat, minted: nat, w': World)
    requires Next(w, Refresh(box, minted, NoFault), w')
    ensures Steps(w, w')
  {
  }

  // ----- the client -----

  /**
    Whatever other mailbox objects, deliveries and other sessions have done since
    the client was in step: hearing the report of the next poll brings it in step
    again if and only if nothing it was shown has been removed. Flag changes do
    not matter.
   */
  lemma FollowsWhen(ws: seq<World>, box: nat, minted: nat, w': World, recent: nat, always: bool)
    requires Walk(ws) && Inv(ws[0]) && SyncedIn(ws[0], ViewAt(ws[0], box)) && ViewAt(ws[|ws| - 1], box) == ViewAt(ws[0], box)
    requires Next(ws[|ws| - 1], Refresh(box, minted, NoFault), w')
    ensures var before, after := ViewAt(ws[0], box).messages, ViewAt(w', box).messages;
      HearAll(Some(Uids(before)), PollReport(|before|, |after|, recent, always), Uids(after)) == Some(Uids(after)) <==>
      AllStillThere(ws[|ws| - 1].folder.files, ViewAt(ws[0], box))
    ensures Inv(w') && SyncedIn(w', ViewAt(w', box))
  {
    var w, v, v' := ws[0], ViewAt(ws[0], box), ViewAt(w', box);
    WalkIsLater(ws, v, box, minted, w');
    HearReportWhen(Uids(v.messages), Uids(v'.messages), recent, always);
    if AllStillThere(w'.folder.files, v) { ThereIsPrefix(w, v, w', v'); }
    if Uids(v.messages) <= Uids(v'.messages) {
      hide Later, Inv, SyncedIn, HearAll, Next;
      forall i | 0 <= i < |v.messages| ensures StillThere(w'.folder.files, BaseName(v.messages[i].name)) {
        PrefixIsThere(w, v, w', v', i);
      }
    }
  }
}
