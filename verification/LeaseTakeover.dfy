/** Why one lock file is not enough: what a replaced file does to two holders, and what revalidation does about it. */
module LeaseTakeover {
  import opened Common
  import opened LeaseWorld
  import Lease

  /**
   * A look at the lock file keeps a holder exactly when it may only cancel or the path still names its file; otherwise
   * the holder gives up its lock and its authority.
   */
  lemma RevalidationKeepsIff(w: World, pid: nat)
    requires ProcOf(w, pid).Holding?
    ensures var p, v := ProcOf(w, pid), Acts(w, pid, Revalidate);
            && (ProcOf(v, pid) == p <==> p.mode == Lease.CancelOnly || w.path == Some(p.inode))
            && (ProcOf(v, pid) == p ==> v == w)
            && (ProcOf(v, pid) != p ==>
                  ProcOf(v, pid) == Idle && !(p.inode in v.holders && v.holders[p.inode] == pid) && v.path == w.path)
  {
  }

  /** After one process acquired, the lock file is replaced and another process acquires the new one. */
  function TakenOver(w: World, a: nat, b: nat, x: Encoding): World {
    Acquire(Next(Acquire(w, a, x), NewFile(None)), b, x)
  }

  /**
   * When the lock file is replaced under its holder, a second process acquires as well, and both hold a lock. But only
   * the second has authority; if the old file is put back it is only the first, and with no file at all it is neither.
   */
  lemma ReplacedFileHasOneActive(w: World, a: nat, b: nat, inode: nat, x: Encoding)
    requires CanAcquire(w, a, inode) && a != b && ProcOf(w, b).Idle? && |w.files| !in w.holders
    ensures var v := TakenOver(w, a, b, x);
            && ProcOf(v, a).Holding? && ProcOf(v, b).Holding?
            && !Active(v, a) && Active(v, b)
            && Active(Next(v, Rename(inode)), a) && !Active(Next(v, Rename(inode)), b)
            && !Active(Next(v, Unlink), a) && !Active(Next(v, Unlink), b)
  {
    AcquireGrants(w, a, inode, x);
    var u := Next(Acquire(w, a, x), NewFile(None));
    AcquireGrants(u, b, |w.files|, x);
  }
}
