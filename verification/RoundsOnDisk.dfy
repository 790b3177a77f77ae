/**
 The durable rounds see a checkpoint directory as two images.  Here that view is proved: a persist cut
 off anywhere does to the directory what saving, crashing in a save or crashing do to the images, and
 a restore reads the image a restart reads.
 */
module RoundsOnDisk {
  import opened Wrappers
  import C = Checkpoint
  import R = DurableRound
  import Journal

  // What the rounds need of a lineage: the observations in its state, and its spend ledger.
  type Image = (C.LineageState, map<string, int>) -> R.Saved

  function ImageOf(image: Image, g: C.Lineage): R.Saved { image(g.state, g.spent) }

  // The images of a world are those of the committed lineages.
  predicate Pictures(image: Image, c: C.Committed, w: R.World)
  {
    c.current.Some? && w.disk == ImageOf(image, c.current.value) &&
    match c.previous
    case None => w.older.None?
    case Some(g) => w.older == Some(ImageOf(image, g))
  }

  // The action of the process that dies, or fails, when `n` of the four files of its persist are published.
  function Cut(n: nat, dies: bool): R.Action
  {
    if n >= 4 then R.Save
    else if n == 3 then (if dies then R.CrashInSave else R.FailInSave)
    else if dies then R.Crash else R.Fail
  }

  // Over a committed checkpoint an interrupted persist leaves one of three pairs.
  lemma InterruptedPersistLeaves(c: C.Committed, g: C.Lineage, n: nat)
    requires c.current.Some?
    ensures var after := C.CommittedAfter(c, g, n);
      if n >= 4 then after == C.Committed(Some(g), c.current)
      else if n == 3 then after == C.Committed(c.current, c.current)
      else after == c
  {
  }

  /** An interrupted persist is an action of the round system: whatever number of writes it got to, the directory
      represents the pair of lineages whose images are the committed and the superseded image after that action. */
  lemma PersistIsAnAction(h: C.Hashes, d: C.Directory, c: C.Committed, a: C.Attempt, dies: bool, image: Image,
      w: R.World)
    requires C.NoCollisions(h) && C.Represents(h, d, c) && Journal.WellChained(h.entry, a.g.journal)
    requires Pictures(image, c, w)
    requires w.process.Some? && R.Saving(w.process.value.at) && w.process.value.mem == ImageOf(image, a.g)
    ensures var n := C.Done(h, d, a);
      var after := C.CommittedAfter(c, a.g, n / 3);
      && C.Represents(h, C.ApplyAll(d, C.PersistSteps(h, a.g, d)[..n]), after)
      && Pictures(image, after, R.Next(w, Cut(n / 3, dies)))
  {
    C.AttemptCommits(h, d, c, a);
    InterruptedPersistLeaves(c, a.g, C.Done(h, d, a) / 3);
    CutPictures(c, a.g, C.Done(h, d, a) / 3, dies, image, w);
  }

  lemma CutPictures(c: C.Committed, g: C.Lineage, n: nat, dies: bool, image: Image, w: R.World)
    requires Pictures(image, c, w)
    requires w.process.Some? && R.Saving(w.process.value.at) && w.process.value.mem == ImageOf(image, g)
    ensures Pictures(image, C.CommittedAfter(c, g, n), R.Next(w, Cut(n, dies)))
  {
    var v := R.Next(w, Cut(n, dies));
    if n >= 4 {
      assert v.disk == w.process.value.mem && v.older == Some(w.disk);
    } else if n == 3 {
      assert v.disk == w.disk && v.older == Some(w.disk);
    } else {
      assert v.disk == w.disk && v.older == w.older;
    }
  }

  /** A restore resumes with the image the restart of the round system starts from. */
  lemma RestoreReadsImage(h: C.Hashes, d: C.Directory, c: C.Committed, superseded: bool, arrival: C.Arrival,
      image: Image, w: R.World)
    requires C.Represents(h, d, c) && Pictures(image, c, w) && w.process.None?
    requires C.Restore(h, d, superseded, arrival).Some?
    ensures R.Next(w, R.Restart(superseded)).process
      == Some(R.Process(ImageOf(image, C.Restore(h, d, superseded, arrival).value), R.Idle))
  {
    C.RestoreReturnsCommitted(h, d, c, superseded, arrival);
  }
}
