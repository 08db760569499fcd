/** fs/block_dev.c: the open counters of a disk and its partitions. */
module BdOpen {

  const ENXIO: int := 6
  const ENOMEM: int := 12

  /** Open counts of the partitions, added up; how many partitions are open at all. */
  function Sum(n: seq<nat>): nat { if n == [] then 0 else Sum(n[..|n| - 1]) + n[|n| - 1] }

  function Opened(n: seq<nat>): nat {
    if n == [] then 0 else Opened(n[..|n| - 1]) + (if n[|n| - 1] > 0 then 1 else 0)
  }

  lemma {:induction false} SetOne(n: seq<nat>, p: nat, x: nat)
    requires p < |n|
    ensures Sum(n[p := x]) == Sum(n) - n[p] + x
    ensures Opened(n[p := x]) == Opened(n) - (if n[p] > 0 then 1 else 0) + (if x > 0 then 1 else 0)
    ensures n[p] <= Sum(n) && (n[p] > 0 ==> Opened(n) > 0)
  {
    var k := |n| - 1;
    if p < k {
      assert n[p := x][..k] == n[..k][p := x];
      SetOne(n[..k], p, x);
    } else {
      assert n[p := x][..k] == n[..k];
    }
  }

  lemma {:induction false} AllZero(n: seq<nat>)
    requires forall p :: 0 <= p < |n| ==> n[p] == 0
    ensures Sum(n) == 0 && Opened(n) == 0
  {
    if n != [] { AllZero(n[..|n| - 1]); }
  }

  /** What the outside world answers during one do_open. */
  datatype Answers = Answers(
    disk: bool,         // get_gendisk finds a disk
    wholeDisk: bool,    // and again when the whole device is opened on behalf of a partition
    whole: bool,        // bdget_disk finds the whole device
    openErr: int,       // the driver's open; 0 is success
    partitionUp: bool)  // the disk is up and the partition exists and is not empty

  /** The whole device can be opened for a partition, and the partition is there. */
  predicate WholeOpens(a: Answers) { a.whole && a.wholeDisk && a.openErr == 0 && a.partitionUp }

  /** A disk with its partitions.  `direct` counts the successful opens of the whole device itself
      that have not been put. */
  class Disk {
    var openers: int
    var partCount: int
    var contained: bool          // bd_contains of the whole device is set
    var partOpeners: seq<nat>
    var partContained: seq<bool> // bd_contains of a partition points to the whole device
    ghost var direct: nat

    ghost predicate Valid()
      reads this
    {
      && openers == direct + Opened(partOpeners) && partCount == Sum(partOpeners)
      && (contained <==> openers > 0) && |partContained| == |partOpeners|
      && forall p :: 0 <= p < |partOpeners| ==> (partContained[p] <==> partOpeners[p] > 0)
    }

    constructor (partitions: nat)
      ensures Valid() && direct == 0 && |partOpeners| == partitions
      ensures forall p :: 0 <= p < partitions ==> partOpeners[p] == 0
    {
      openers, partCount, contained, direct := 0, 0, false, 0;
      partOpeners := seq(partitions, _ => 0);
      partContained := seq(partitions, _ => false);
      new;
      AllZero(partOpeners);
    }

    /** do_open of the whole device, for whoever asks. */
    method OpenWhole(disk: bool, openErr: int) returns (ret: int)
      requires openers >= 0 && (contained <==> openers > 0)
      modifies this`openers, this`contained
      ensures ret == if !disk then -ENXIO else openErr
      ensures openers == (if ret == 0 then old(openers) + 1 else old(openers)) && (contained <==> openers > 0)
    {
      if !disk { return -ENXIO; }
      if openers == 0 {
        contained := true;
        if openErr != 0 {
          contained := false;
          return openErr;
        }
      } else if openErr != 0 {
        return openErr;
      }
      openers := openers + 1;
      return 0;
    }

    /** blkdev_put of the whole device, for whoever asks. */
    method PutWhole()
      requires openers > 0
      modifies this`openers, this`contained
      ensures openers == old(openers) - 1 && contained == (if openers == 0 then false else old(contained))
    {
      openers := openers - 1;
      if openers == 0 { contained := false; }
    }

    /** blkdev_get of the whole device. */
    method Open(a: Answers) returns (ret: int)
      requires Valid()
      modifies this
      ensures Valid() && unchanged(this`partOpeners) && unchanged(this`partContained) && unchanged(this`partCount)
      ensures direct == if ret == 0 then old(direct) + 1 else old(direct)
      ensures ret == if !a.disk then -ENXIO else a.openErr
    {
      ret := OpenWhole(a.disk, a.openErr);
      if ret == 0 { direct := direct + 1; }
    }

    /** blkdev_get of partition p.  The first open also opens the whole device. */
    method OpenPart(p: nat, a: Answers) returns (ret: int)
      requires Valid() && p < |partOpeners|
      modifies this
      ensures Valid() && direct == old(direct)
      ensures partOpeners == if ret == 0 then old(partOpeners)[p := old(partOpeners[p]) + 1] else old(partOpeners)
      ensures ret == 0 <==> a.disk && (old(partOpeners[p]) > 0 || WholeOpens(a))
      ensures ret == if !a.disk then -ENXIO
                     else if old(partOpeners[p]) > 0 then 0
                     else if !a.whole then -ENOMEM
                     else if !a.wholeDisk then -ENXIO
                     else if a.openErr != 0 then a.openErr
                     else if !a.partitionUp then -ENXIO else 0
    {
      if !a.disk { return -ENXIO; }
      SetOne(partOpeners, p, partOpeners[p] + 1);
      if partOpeners[p] == 0 {
        if !a.whole { return -ENOMEM; }
        ret := OpenWhole(a.wholeDisk, a.openErr);
        if ret != 0 { return; }
        partContained := partContained[p := true];
        partCount := partCount + 1;
        if !a.partitionUp {
          partCount := partCount - 1;
          PutWhole();
          partContained := partContained[p := false];
          return -ENXIO;
        }
      } else {
        partCount := partCount + 1;
      }
      partOpeners := partOpeners[p := partOpeners[p] + 1];
      return 0;
    }

    /** blkdev_put of the whole device by somebody who opened it. */
    method Put()
      requires Valid() && direct > 0
      modifies this
      ensures Valid() && direct == old(direct) - 1 && partOpeners == old(partOpeners) && partCount == old(partCount)
    {
      PutWhole();
      direct := direct - 1;
    }

    /** blkdev_put of partition p by somebody who opened it.  The last put also puts the whole device. */
    method PutPart(p: nat)
      requires Valid() && p < |partOpeners| && partOpeners[p] > 0
      modifies this
      ensures Valid() && direct == old(direct) && partOpeners == old(partOpeners)[p := old(partOpeners[p]) - 1]
    {
      SetOne(partOpeners, p, partOpeners[p] - 1);
      partOpeners := partOpeners[p := partOpeners[p] - 1];
      partCount := partCount - 1;
      if partOpeners[p] == 0 {
        PutWhole();
        partContained := partContained[p := false];
      }
    }

    /** Once everything is closed all counters are zero again. */
    lemma AllClosed()
      requires Valid() && direct == 0 && forall p :: 0 <= p < |partOpeners| ==> partOpeners[p] == 0
      ensures openers == 0 && partCount == 0 && !contained
      ensures forall p :: 0 <= p < |partContained| ==> !partContained[p]
    {
      AllZero(partOpeners);
    }
  }
}
