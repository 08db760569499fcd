/** fs/block_dev.c: exclusive claims on a disk and its partitions, with bd_claim and bd_release. */
module BdClaim {

  const EBUSY: int := 16

  /** bd_holder: NULL, the address of bd_claim itself, or somebody. */
  datatype Holder = Nobody | BeingPartitioned | Owner(id: nat)

  /** bd_holder and bd_holders of a block device. */
  datatype Dev = Dev(holder: Holder, holders: int)

  /** Who holds a device, and through how many claims not yet released. */
  datatype Claims = Claims(owner: nat, count: nat)

  /** Claims on the partitions, that is, on all devices but the first. */
  function PartClaims(c: seq<Claims>): nat
    requires c != []
  {
    if |c| == 1 then 0 else PartClaims(c[..|c| - 1]) + c[|c| - 1].count
  }

  lemma {:induction false} PartClaimsSet(c: seq<Claims>, d: nat, x: Claims)
    requires d < |c|
    ensures PartClaims(c[d := x]) == if d == 0 then PartClaims(c) else PartClaims(c) - c[d].count + x.count
  {
    if |c| > 1 {
      var n := |c| - 1;
      if d < n {
        assert c[d := x][..n] == c[..n][d := x];
        PartClaimsSet(c[..n], d, x);
      } else {
        assert c[d := x][..n] == c[..n];
      }
    }
  }

  lemma {:induction false} PartClaimsAtLeast(c: seq<Claims>, d: nat)
    requires 0 < d < |c|
    ensures c[d].count <= PartClaims(c)
  {
    if d < |c| - 1 { PartClaimsAtLeast(c[..|c| - 1], d); }
  }

  /** No partition is claimed. */
  ghost predicate PartsFree(c: seq<Claims>) {
    forall p :: 0 < p < |c| ==> c[p].count == 0
  }

  lemma {:induction false} PartClaimsNone(c: seq<Claims>)
    requires c != []
    ensures PartClaims(c) == 0 <==> PartsFree(c)
  {
    if |c| > 1 {
      PartClaimsNone(c[..|c| - 1]);
      if PartsFree(c) {
        assert PartsFree(c[..|c| - 1]);
      } else {
        var p :| 0 < p < |c| && c[p].count != 0;
        PartClaimsAtLeast(c, p);
      }
    }
  }

  /** What a device shows of the claims on it. */
  function Shown(c: Claims): Holder { if c.count == 0 then Nobody else Owner(c.owner) }

  /* ---- Sequences of claims and releases ---- */

  /** bd_claim or bd_release of device d; both are atomic under bdev_lock. */
  datatype Op = ClaimOp(d: nat, holder: nat) | ReleaseOp(d: nat)

  /** The holder has the device already, or nobody has it and nobody has what it contains or is contained in. */
  predicate Granted(c: seq<Claims>, d: nat, holder: nat)
    requires d < |c|
  {
    || (c[d].count > 0 && c[d].owner == holder)
    || (c[d].count == 0 && (if d == 0 then PartClaims(c) == 0 else c[0].count == 0))
  }

  /** The claims after an operation.  Releases are for somebody who holds the device. */
  function Next(c: seq<Claims>, op: Op): (e: seq<Claims>)
    ensures |e| == |c|
  {
    if op.d >= |c| then c
    else if op.ReleaseOp? then (if c[op.d].count == 0 then c else c[op.d := c[op.d].(count := c[op.d].count - 1)])
    else if Granted(c, op.d, op.holder) then c[op.d := Claims(op.holder, c[op.d].count + 1)] else c
  }

  function After(c: seq<Claims>, ops: seq<Op>): (e: seq<Claims>)
    ensures |e| == |c|
    decreases |ops|
  {
    if ops == [] then c else After(Next(c, ops[0]), ops[1..])
  }

  /** Whole device and partitions are not claimed at once. */
  predicate Apart(c: seq<Claims>)
    requires c != []
  {
    c[0].count == 0 || PartClaims(c) == 0
  }

  lemma NextApart(c: seq<Claims>, op: Op)
    requires c != [] && Apart(c)
    ensures Apart(Next(c, op))
  {
    hide PartClaims;
    if op.d < |c| {
      PartClaimsSet(c, op.d, Next(c, op)[op.d]);
      if op.d > 0 { PartClaimsAtLeast(c, op.d); }
      assert c[op.d := c[op.d]] == c;
    }
  }

  /** After every sequence of operations the whole device and its partitions are not claimed at once. */
  lemma {:induction false} AlwaysApart(c: seq<Claims>, ops: seq<Op>)
    requires c != [] && Apart(c)
    ensures Apart(After(c, ops)) && (After(c, ops)[0].count == 0 || PartsFree(After(c, ops)))
    decreases |ops|
  {
    if ops != [] {
      NextApart(c, ops[0]);
      AlwaysApart(Next(c, ops[0]), ops[1..]);
    } else {
      PartClaimsNone(c);
    }
  }

  function Releases(ops: seq<Op>, d: nat): nat {
    if ops == [] then 0 else Releases(ops[1..], d) + if ops[0] == ReleaseOp(d) then 1 else 0
  }

  /** Whoever has a device keeps it, whatever others ask for, until it has been released as often as claimed;
      and meanwhile nobody else is granted it. */
  lemma {:induction false} HeldUntilReleased(c: seq<Claims>, ops: seq<Op>, d: nat, other: nat)
    requires d < |c| && Releases(ops, d) < c[d].count && other != c[d].owner
    ensures After(c, ops)[d].owner == c[d].owner && After(c, ops)[d].count >= c[d].count - Releases(ops, d)
    ensures !Granted(After(c, ops), d, other)
    decreases |ops|
  {
    if ops != [] { HeldUntilReleased(Next(c, ops[0]), ops[1..], d, other); }
  }

  /** A disk: device 0 is the whole device, the others are partitions with bd_contains pointing to it. */
  class Disk {
    var dev: seq<Dev>
    ghost var claims: seq<Claims>

    ghost predicate Valid()
      reads this
    {
      && |dev| == |claims| >= 1 && Apart(claims)
      && dev[0].holders == 2 * claims[0].count + PartClaims(claims)
      && dev[0].holder == (if PartClaims(claims) > 0 then BeingPartitioned else Shown(claims[0]))
      && forall d :: 1 <= d < |dev| ==> dev[d] == Dev(Shown(claims[d]), claims[d].count)
    }

    constructor (partitions: nat)
      ensures Valid() && |dev| == partitions + 1 && forall d :: 0 <= d < |claims| ==> claims[d].count == 0
    {
      dev := seq(partitions + 1, _ => Dev(Nobody, 0));
      claims := seq(partitions + 1, _ => Claims(0, 0));
      new;
      NoClaims(claims);
    }

    /** bd_claim: granted exactly if the holder has the device already, or nobody has it and nobody has
        what it contains or is contained in. */
    method Claim(d: nat, holder: nat) returns (res: int)
      requires Valid() && d < |dev|
      modifies this
      ensures Valid() && |dev| == old(|dev|)
      ensures res == 0 || res == -EBUSY
      ensures res == 0 <==>
                || (old(claims[d].count) > 0 && old(claims[d].owner) == holder)
                || (old(claims[d].count) == 0 && (if d == 0 then old(PartsFree(claims)) else old(claims[0].count) == 0))
      ensures res == 0 ==> claims == old(claims)[d := Claims(holder, old(claims[d].count) + 1)]
      ensures res != 0 ==> claims == old(claims) && dev == old(dev)
      ensures claims == Next(old(claims), ClaimOp(d, holder))
    {
      hide PartClaims;
      ghost var was := claims;
      if d > 0 { PartClaimsAtLeast(was, d); }
      PartClaimsNone(was);
      if dev[d].holder == Owner(holder) { res := 0; }
      else if dev[d].holder != Nobody { res := -EBUSY; }
      else if d == 0 { res := 0; }
      else if dev[0].holder == BeingPartitioned { res := 0; }
      else if dev[0].holder != Nobody { res := -EBUSY; }
      else { res := 0; }
      if res == 0 {
        dev := dev[0 := Dev(BeingPartitioned, dev[0].holders + 1)];
        dev := dev[d := Dev(Owner(holder), dev[d].holders + 1)];
        PartClaimsSet(claims, d, Claims(holder, claims[d].count + 1));
        claims := claims[d := Claims(holder, claims[d].count + 1)];
      }
    }

    /** bd_release of a device somebody holds. */
    method Release(d: nat)
      requires Valid() && d < |dev| && claims[d].count > 0
      modifies this
      ensures Valid() && claims == old(claims)[d := old(claims[d].(count := claims[d].count - 1))]
      ensures claims == Next(old(claims), ReleaseOp(d))
    {
      hide PartClaims;
      if d > 0 { PartClaimsAtLeast(claims, d); }
      var n := dev[0].holders - 1;
      dev := dev[0 := Dev(if n == 0 then Nobody else dev[0].holder, n)];
      n := dev[d].holders - 1;
      dev := dev[d := Dev(if n == 0 then Nobody else dev[d].holder, n)];
      PartClaimsSet(claims, d, claims[d].(count := claims[d].count - 1));
      claims := claims[d := claims[d].(count := claims[d].count - 1)];
    }

    /** The whole device and a partition are never claimed at once; each claimed device shows its one
        holder; and bd_holders of the whole device counts its own claims twice or those of partitions. */
    lemma Exclusive(d: nat)
      requires Valid() && 0 < d < |dev|
      ensures claims[0].count == 0 || claims[d].count == 0
      ensures claims[d].count > 0 ==> dev[d].holder == Owner(claims[d].owner) && dev[0].holder == BeingPartitioned
      ensures claims[0].count > 0 ==>
                dev[0] == Dev(Owner(claims[0].owner), 2 * claims[0].count) && dev[d] == Dev(Nobody, 0)
      ensures claims[0].count == 0 ==> dev[0].holders == PartClaims(claims)
    {
      PartClaimsAtLeast(claims, d);
    }
  }

  lemma {:induction false} NoClaims(c: seq<Claims>)
    requires c != [] && forall d :: 0 <= d < |c| ==> c[d].count == 0
    ensures PartClaims(c) == 0
  {
    if |c| > 1 { NoClaims(c[..|c| - 1]); }
  }
}
