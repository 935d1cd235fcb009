/** The real-time LFN monitor: a global `monitoring` flag switched by the
    user, an audio callback that queues captured blocks while the flag is
    set, and the worker pass that drains the queue and analyses what it
    drained. The queue is a FIFO sequence and the worker's passes run one
    after the other; the concurrent threads themselves are not modelled. */
module LfnMonitor {
  import opened Results
  import opened Signal
  import opened BandPeak

  /** One callback's `indata` (one input channel). */
  type Block = seq<real>

  /** A row of the `live_logs` table, without its timestamp. */
  datatype LogRow = LogRow(lfnPeak: real, lfnDb: real, hfPeak: real, hfDb: real)

  class Monitor {
    /** The global `monitoring` flag. */
    var monitoring: bool
    /** `audio_queue`, oldest block first. */
    var queue: seq<Block>
    /** How many `record_loop` worker threads have been started. */
    var workers: nat
    /** Rows inserted into `live_logs`, oldest first. */
    var log: seq<LogRow>

    constructor ()
      ensures !monitoring && queue == [] && workers == 0 && log == []
    {
      monitoring := false;
      queue := [];
      workers := 0;
      log := [];
    }

    /** `audio_callback`: a copy of the block is queued only while the
        monitor is on. */
    method AudioCallback(indata: Block)
      modifies this
      ensures queue == if old(monitoring) then old(queue) + [indata] else old(queue)
      ensures monitoring == old(monitoring) && workers == old(workers) && log == old(log)
    {
      if monitoring {
        queue := queue + [indata];
      }
    }

    /** `toggle_monitoring`: off to on sets the flag and starts exactly one
        worker; on to off only clears the flag. */
    method Toggle()
      modifies this
      ensures monitoring == !old(monitoring)
      ensures workers == if old(monitoring) then old(workers) else old(workers) + 1
      ensures queue == old(queue) && log == old(log)
    {
      if !monitoring {
        monitoring := true;
        workers := workers + 1;
      } else {
        monitoring := false;
      }
    }

    /** Two presses of ENTER restore the flag, and exactly one worker was
        started in between, whichever state the monitor was in. */
    method ToggleTwice()
      modifies this
      ensures monitoring == old(monitoring)
      ensures workers == old(workers) + 1
      ensures queue == old(queue) && log == old(log)
    {
      Toggle();
      Toggle();
    }

    /** The drain of one `record_loop` pass: every queued block is taken,
        oldest first, and the queue is left empty. */
    method Drain() returns (buffer: seq<Block>)
      modifies this
      ensures buffer == old(queue) && queue == []
      ensures monitoring == old(monitoring) && workers == old(workers) && log == old(log)
    {
      buffer := [];
      while |queue| > 0
        invariant buffer + queue == old(queue)
        invariant monitoring == old(monitoring) && workers == old(workers) && log == old(log)
        decreases |queue|
      {
        buffer := buffer + [queue[0]];
        queue := queue[1..];
      }
    }

    /** One pass of the `record_loop` body after its sleep: drain the queue
        and, only when at least one block was drained, analyse the
        concatenated samples. `spectrumOf` stands for the spectrogram and its
        dB conversion. A successful analysis inserts one log row; a failed
        one (an empty LFN band) is returned as the error that ends the
        worker, and logs nothing. */
    method RecordPass(spectrumOf: seq<real> -> Spectrogram) returns (outcome: Option<Result<LogRow, PeakError>>)
      requires forall audio :: WellFormed(spectrumOf(audio))
      modifies this
      ensures queue == []
      ensures outcome.None? <==> old(queue) == []
      ensures outcome.Some? ==>
        (match AnalyzeBands(spectrumOf(Flatten(old(queue))))
         case Ok(p) => outcome.value == Ok(LogRow(p.lfn.freq, p.lfn.db, p.hf.freq, p.hf.db))
         case Err(e) => outcome.value == Err(e))
      ensures log == if outcome.Some? && outcome.value.Ok? then old(log) + [outcome.value.value] else old(log)
      ensures monitoring == old(monitoring) && workers == old(workers)
    {
      var buffer := Drain();
      if |buffer| > 0 {
        var audio := Flatten(buffer);
        match AnalyzeBands(spectrumOf(audio)) {
          case Ok(p) =>
            var row := LogRow(p.lfn.freq, p.lfn.db, p.hf.freq, p.hf.db);
            log := log + [row];
            outcome := Some(Ok(row));
          case Err(e) =>
            outcome := Some(Err(e));
        }
      } else {
        outcome := None;
      }
    }
  }

  /** The callbacks the stream delivers during one sleep of the worker,
      in arrival order: all of them are queued while the monitor is on,
      none while it is off. */
  method Deliver(m: Monitor, blocks: seq<Block>)
    modifies m
    ensures m.queue == old(m.queue) + (if old(m.monitoring) then blocks else [])
    ensures m.monitoring == old(m.monitoring) && m.workers == old(m.workers) && m.log == old(m.log)
  {
    var i := 0;
    while i < |blocks|
      invariant 0 <= i <= |blocks|
      invariant m.queue == old(m.queue) + (if m.monitoring then blocks[..i] else [])
      invariant m.monitoring == old(m.monitoring) && m.workers == old(m.workers) && m.log == old(m.log)
    {
      m.AudioCallback(blocks[i]);
      assert blocks[..i + 1] == blocks[..i] + [blocks[i]];
      i := i + 1;
    }
    assert blocks[..i] == blocks;
  }
}
