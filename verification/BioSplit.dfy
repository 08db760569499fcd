/** fs/bio.c: splitting a one-page bio in two and ending it when both halves have ended. */
module BioSplit {
  import opened Machine

  /** The halves of a bio of `size` bytes at `sector`. */
  datatype Halves = Halves(sector1: int, size1: nat, sector2: int, size2: nat)

  /** first_sectors << 9 in 32 bits. */
  function Shift(firstSectors: int): (n: nat)
    ensures n < WORD
  {
    512 * firstSectors % WORD
  }

  function Cut(sector: int, size: nat, firstSectors: int): Halves {
    Halves(sector, Shift(firstSectors), sector + firstSectors, (size - Shift(firstSectors)) % WORD)
  }

  /** The second half starts where the first ends and ends where the bio ends. */
  predicate Tiles(h: Halves, sector: int, size: nat) {
    && h.sector1 == sector && 512 * h.sector1 + h.size1 == 512 * h.sector2
    && 512 * h.sector2 + h.size2 == 512 * sector + size
  }

  /** For every int: the halves tile the bio exactly if the first is neither negative nor larger than
      the bio. */
  lemma TilesIff(sector: int, size: nat, firstSectors: int)
    requires size < WORD
    ensures Tiles(Cut(sector, size, firstSectors), sector, size) <==> 0 <= 512 * firstSectors <= size
  {
    if 0 <= 512 * firstSectors < WORD { assert Shift(firstSectors) == 512 * firstSectors; }
  }

  /** Splitting a bio of one sector after two sectors leaves a second half of nearly 4 GB. */
  lemma TooFar()
    ensures Cut(0, 512, 2).size2 == WORD - 512
  {}

  /** At 2^23 sectors the shift gives 0, and the second half keeps the full size 2^23 sectors further on. */
  lemma ShiftedOut()
    ensures Cut(0, 512, 0x80_0000) == Halves(0, 0, 0x80_0000, 512) && !Tiles(Cut(0, 512, 0x80_0000), 0, 512)
  {}

  /** One end of I/O as the owner of a bio sees it. */
  datatype Ended = Ended(bytes: nat, error: int)

  /** struct bio, with its single bio_vec; `ends` records the calls of the owner's bi_end_io. */
  class Bio {
    var sector: int
    var size: nat
    var offset: nat
    var len: nat
    var uptodate: bool
    var ends: seq<Ended>

    constructor (sector: int, size: nat, offset: nat, len: nat, uptodate: bool)
      ensures this.sector == sector && this.size == size && this.offset == offset && this.len == len
      ensures this.uptodate == uptodate && ends == []
    {
      this.sector, this.size, this.offset, this.len := sector, size, offset, len;
      this.uptodate, ends := uptodate, [];
    }

    /** bio_endio up to the call of bi_end_io; `done` is what the callback is told. */
    method Progress(bytesDone: nat, error: int) returns (done: nat)
      modifies this`uptodate, this`size, this`sector
      ensures done == (if bytesDone > old(size) then old(size) else bytesDone)
      ensures size == old(size) - done && sector == old(sector) + done / 512
      ensures uptodate == (old(uptodate) && error == 0)
    {
      if error != 0 { uptodate := false; }
      done := bytesDone;
      if done > size { done := size; }
      size := size - done;
      sector := sector + done / 512;
    }

    /** bio_endio for a bio whose owner is told through `ends`. */
    method EndIo(bytesDone: nat, error: int)
      modifies this
      ensures var done := if bytesDone > old(size) then old(size) else bytesDone;
              size == old(size) - done && ends == old(ends) + [Ended(done, error)]
      ensures uptodate == (old(uptodate) && error == 0)
    {
      var done := Progress(bytesDone, error);
      ends := ends + [Ended(done, error)];
    }
  }

  /** The last of the reported errors that are not zero, or zero. */
  function LastError(errors: seq<int>): int {
    if errors == [] then 0
    else if errors[|errors| - 1] != 0 then errors[|errors| - 1]
    else LastError(errors[..|errors| - 1])
  }

  lemma LastErrorMore(errors: seq<int>, err: int)
    ensures LastError(errors + [err]) == if err != 0 then err else LastError(errors)
  {
    assert (errors + [err])[..|errors|] == errors;
  }

  /** There is an error to report exactly if some half reported one. */
  lemma {:induction false} ErrorIffReported(errors: seq<int>)
    ensures LastError(errors) != 0 <==> exists k :: 0 <= k < |errors| && errors[k] != 0
  {
    if errors != [] {
      var n := |errors| - 1;
      ErrorIffReported(errors[..n]);
      if errors[n] == 0 && LastError(errors) != 0 {
        var k :| 0 <= k < n && errors[..n][k] != 0;
        assert errors[k] != 0;
      }
      if LastError(errors) == 0 {
        forall k | 0 <= k < |errors| ensures errors[k] == 0 {
          if k < n { assert errors[..n][k] == errors[k]; }
        }
      }
    }
  }

  /** struct bio_pair.  `finished` says which halves have ended, `released` whether the submitter let
      go, and `errors` what both halves reported, in order. */
  class BioPair {
    const master: Bio
    const bio1: Bio
    const bio2: Bio
    var cnt: int
    var error: int
    ghost var finished: (bool, bool)
    ghost var released: bool
    ghost var errors: seq<int>
    ghost const total: nat
    ghost const uptodate: bool

    ghost function Holders(): int
      reads this
    {
      (if finished.0 then 0 else 1) + (if finished.1 then 0 else 1) + (if released then 0 else 1)
    }

    /** The master ends exactly when the last of the three has let go, and then once, with its full
        size and the last error reported. */
    ghost predicate Valid()
      reads this, master, bio1, bio2
    {
      && master != bio1 && master != bio2 && bio1 != bio2
      && cnt == Holders() && error == LastError(errors)
      && (finished.0 ==> bio1.size == 0) && (finished.1 ==> bio2.size == 0)
      && (cnt > 0 ==> master.ends == [] && master.size == total && master.uptodate == uptodate)
      && (cnt == 0 ==>
            master.ends == [Ended(total, error)] && master.size == 0 && master.uptodate == (uptodate && error == 0))
    }

    /** bio_split.  The arithmetic of bi_size, bv_len and bv_offset is unsigned. */
    constructor Split(bi: Bio, firstSectors: int)
      requires bi.ends == []
      ensures Valid() && master == bi && total == bi.size && uptodate == bi.uptodate && fresh(bio1) && fresh(bio2)
      ensures !finished.0 && !finished.1 && !released && errors == []
      ensures Halves(bio1.sector, bio1.size, bio2.sector, bio2.size) == Cut(bi.sector, bi.size, firstSectors)
      ensures bio1.uptodate == bio2.uptodate == bi.uptodate
      ensures bio1.offset == bi.offset && bio2.offset == (bi.offset + bio1.len) % WORD
      ensures bio1.len == Shift(firstSectors) && bio2.len == Cut(bi.sector, bi.len, firstSectors).size2
    {
      var first := Shift(firstSectors);
      master := bi;
      bio1 := new Bio(bi.sector, first, bi.offset, first, bi.uptodate);
      bio2 := new Bio(bi.sector + firstSectors, (bi.size - first) % WORD,
                      (bi.offset + first) % WORD, (bi.len - first) % WORD, bi.uptodate);
      cnt, error := 3, 0;
      finished, released, errors, total, uptodate := (false, false), false, [], bi.size, bi.uptodate;
    }

    /** bio_pair_release: the third call ends the master. */
    method Release()
      requires cnt >= 1
      modifies this`cnt, master
      ensures cnt == old(cnt) - 1
      ensures old(cnt) > 1 ==> unchanged(master)
      ensures old(cnt) == 1 ==>
                && master.size == 0 && master.ends == old(master.ends) + [Ended(old(master.size), error)]
                && master.uptodate == (old(master.uptodate) && error == 0)
    {
      cnt := cnt - 1;
      if cnt == 0 { master.EndIo(master.size, error); }
    }

    /** bio_endio on the first half, and bio_pair_end_1. */
    method End1(bytesDone: nat, err: int)
      requires Valid() && !finished.0
      modifies this, bio1, master
      ensures Valid() && errors == old(errors) + [err] && finished.1 == old(finished.1) && released == old(released)
      ensures finished.0 <==> bytesDone >= old(bio1.size)
      ensures bio1.size == if bytesDone > old(bio1.size) then 0 else old(bio1.size) - bytesDone
    {
      hide LastError;
      LastErrorMore(errors, err);
      var _ := bio1.Progress(bytesDone, err);
      errors := errors + [err];
      if err != 0 { error := err; }
      if bio1.size != 0 { return; }
      finished := (true, finished.1);
      Release();
    }

    /** bio_endio on the second half, and bio_pair_end_2. */
    method End2(bytesDone: nat, err: int)
      requires Valid() && !finished.1
      modifies this, bio2, master
      ensures Valid() && errors == old(errors) + [err] && finished.0 == old(finished.0) && released == old(released)
      ensures finished.1 <==> bytesDone >= old(bio2.size)
      ensures bio2.size == if bytesDone > old(bio2.size) then 0 else old(bio2.size) - bytesDone
    {
      hide LastError;
      LastErrorMore(errors, err);
      var _ := bio2.Progress(bytesDone, err);
      errors := errors + [err];
      if err != 0 { error := err; }
      if bio2.size != 0 { return; }
      finished := (finished.0, true);
      Release();
    }

    /** bio_pair_release by the submitter. */
    method SubmitterRelease()
      requires Valid() && !released
      modifies this, master
      ensures Valid() && released && finished == old(finished) && errors == old(errors)
    {
      released := true;
      Release();
    }

    /** In a state that the methods keep valid the master has ended, once and in full, exactly if both
        halves and the submitter are done; and with an error exactly if a half reported one. */
    lemma EndsOnce()
      requires Valid()
      ensures |master.ends| == if finished.0 && finished.1 && released then 1 else 0
      ensures master.ends != [] ==> bio1.size == bio2.size == 0 && master.ends[0].bytes == total
      ensures master.ends != [] ==>
                (master.ends[0].error != 0 <==> exists k :: 0 <= k < |errors| && errors[k] != 0)
    {
      ErrorIffReported(errors);
    }
  }
}
