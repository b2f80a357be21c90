/** A worker: one file, its I/O buffer, and what lasts from one test to the next. */
module Worker {
  import opened Xorshift
  import opened Pattern
  import opened Protocol

  /** `disk` is the content of the file; `alarm` is set where the program exits. */
  class IoWorker {
    const random: bool
    const buf: array<Word>
    var seed: Word
    var filesize: nat
    var iolimit: nat
    var watermark: nat
    var disk: seq<Sector>
    var alarm: bool

    constructor (random: bool, buf: array<Word>, disk: seq<Sector>, iolimit: nat)
      ensures this.random == random && this.buf == buf && this.disk == disk && this.iolimit == iolimit
      ensures filesize == SECTOR * |disk| && watermark == 0 && !alarm && seed == FIRST_SEED
    {
      this.random := random;
      this.buf := buf;
      this.seed := 88172645463325252;
      this.filesize := SECTOR * |disk|;
      this.iolimit := iolimit;
      this.watermark := 0;
      this.disk := disk;
      this.alarm := false;
    }

    /** What outlives the queue of a test. */
    function AsMedium(): Medium
      reads `watermark, `disk, `alarm
    {
      Medium(random, watermark, disk, alarm)
    }

    method NextRandom() returns (value: Word)
      modifies this`seed
      ensures seed == Step(old(seed)) && value == seed
    {
      seed := RandomUint64(seed);
      value := seed;
    }
  }
}
