/** The object QEMUFileBuffered and its functions, each proved to compute what BufferedFile says. */
module BufferedFileCode {
  import opened BufferedFile

  /** A put loop that will end as e, with `offset` bytes sent. */
  ghost predicate Sending(e: PutEnd, f: File, buf: seq<byte>, offset: int, stop: bool) {
    && offset <= |buf|
    && if stop then f == e.file && if e.failed then offset == -EINVAL else offset >= 0 && e.rest == buf[offset..]
       else offset >= 0 && PutLoop(f, buf[offset..]) == e
  }

  class Stream {
    var data: array<byte>   // buffer and buffer_capacity
    var size: nat           // buffer_size
    var frozen: bool
    var xfer: nat
    var limit: nat
    var error: int          // of the QEMUFile
    var answers: seq<int>   // the backend
    var waits: seq<int>
    var delivered: seq<byte>
    var freed: bool

    ghost predicate Valid()
      reads this
    {
      size <= data.Length
    }

    ghost function View(): File
      reads this, data
      requires Valid()
    {
      File(data[..size], frozen, xfer, limit, error, answers, waits, delivered)
    }

    constructor (rate: nat, toAnswer: seq<int>, toWait: seq<int>)
      ensures Valid() && fresh(data) && View() == Opened(rate, toAnswer, toWait) && !freed
    {
      data := new byte[0];
      size, frozen, xfer, limit, error := 0, false, 0, rate / 10, 0;
      answers, waits, delivered, freed := toAnswer, toWait, [], false;
    }

    /** put_buffer of the backend. */
    method Ask(buf: seq<byte>) returns (ret: int)
      requires Valid()
      modifies this`answers, this`delivered
      ensures Valid() && View() == Asked(old(View()), buf) && ret == Answer(old(View()), |buf|)
    {
      if answers == [] {
        ret := -EIO;
      } else {
        ret := if answers[0] > |buf| then |buf| else answers[0];
        answers := answers[1..];
      }
      if ret > 0 { delivered := delivered + buf[..ret]; }
    }

    /** buffered_append */
    method Append(buf: seq<byte>)
      requires Valid()
      modifies this`data, this`size, data
      ensures Valid() && View() == old(View()).(buffer := old(View()).buffer + buf) &&
              (data == old(data) || fresh(data))
    {
      if |buf| > data.Length - size {
        var tmp := new byte[data.Length + |buf| + 1024];
        forall i | 0 <= i < size { tmp[i] := data[i]; }
        data := tmp;
      }
      assert data[..size] == old(data[..size]);
      forall i | 0 <= i < |buf| { data[size + i] := buf[i]; }
      size := size + |buf|;
      assert data[..size] == old(data[..size]) + buf;
    }

    /** The loop of buffered_flush; `offset` bytes of the buffer are sent. */
    method SendBuffer() returns (offset: nat)
      requires Valid()
      modifies this`answers, this`delivered, this`frozen, this`error
      ensures Valid() && offset <= size && View().buffer == old(View()).buffer
      ensures FlushLoop(old(View()), old(View()).buffer) == (View(), View().buffer[offset..])
    {
      ghost var start := View();
      offset := 0;
      var stop := false;
      while !stop && offset < size
        invariant Valid() && offset <= size && View().buffer == start.buffer
        invariant FlushLoop(start, start.buffer)
               == if stop then (View(), start.buffer[offset..]) else FlushLoop(View(), start.buffer[offset..])
        decreases !stop, size - offset
      {
        ghost var left := start.buffer[offset..];
        assert data[offset..size] == left;
        var ret := Ask(data[offset..size]);
        if ret == -EAGAIN {
          frozen := true;
          stop := true;
        } else if ret <= 0 {
          error := ret;
          stop := true;
        } else {
          assert left[ret..] == start.buffer[offset + ret..];
          offset := offset + ret;
        }
      }
    }

    /** buffered_flush */
    method Flush()
      requires Valid()
      modifies this`answers, this`delivered, this`frozen, this`error, this`size, data
      ensures Valid() && View() == Flushed(old(View()))
    {
      if error != 0 { return; }
      var offset := SendBuffer();
      ghost var sent := View();
      forall i | 0 <= i < size - offset { data[i] := data[i + offset]; }
      size := size - offset;
      assert data[..size] == sent.buffer[offset..];
    }

    /** The loop of buffered_put_buffer: a negative offset for a failure. */
    method SendData(buf: seq<byte>) returns (offset: int)
      requires Valid()
      modifies this`answers, this`delivered, this`frozen, this`error, this`xfer
      ensures Valid() && offset <= |buf|
      ensures var e := PutLoop(old(View()), buf);
              View() == e.file && (if e.failed then offset == -EINVAL else offset >= 0 && e.rest == buf[offset..])
    {
      ghost var start := View();
      offset := 0;
      var stop := false;
      ghost var e := PutLoop(start, buf);
      assert buf[0..] == buf;
      while !stop && !frozen && offset < |buf|
        invariant Valid() && Sending(e, View(), buf, offset, stop)
        decreases !stop, |buf| - offset
      {
        if xfer > limit {
          stop := true;
        } else {
          offset, stop := SendSome(buf, offset, e);
        }
      }
    }

    /** One turn of that loop. */
    method SendSome(buf: seq<byte>, offset: nat, ghost e: PutEnd) returns (next: int, stop: bool)
      requires Valid() && offset < |buf| && !frozen && xfer <= limit && Sending(e, View(), buf, offset, false)
      modifies this`answers, this`delivered, this`frozen, this`error, this`xfer
      ensures Valid() && Sending(e, View(), buf, next, stop) && (stop || next > offset)
    {
      ghost var left := buf[offset..];
      var ret := Ask(buf[offset..]);
      if ret == -EAGAIN {
        frozen := true;
        return offset, true;
      } else if ret <= 0 {
        error := ret;
        return -EINVAL, true;
      } else {
        assert left[ret..] == buf[offset + ret..];
        xfer := xfer + ret;
        return offset + ret, false;
      }
    }

    /** buffered_put_buffer; `notify` says whether it calls put_ready. */
    method PutBuffer(buf: seq<byte>, pos: int) returns (ret: int, notify: bool)
      requires Valid() && !freed
      modifies this, data
      ensures Valid() && !freed && (View(), ret) == Put(old(View()), buf) && (data == old(data) || fresh(data))
      ensures notify <==> old(error) == 0 && pos == 0 && buf == [] && xfer <= limit
    {
      if error != 0 { return error, false; }
      frozen := false;
      Flush();
      var offset := SendData(buf);
      if offset >= 0 {
        Append(buf[offset..]);
        offset := |buf|;
      }
      return offset, pos == 0 && |buf| == 0 && xfer <= limit;
    }

    /** wait_for_unfreeze */
    method Wait()
      requires Valid()
      modifies this`waits, this`error
      ensures Valid() && View() == Waited(old(View()))
    {
      if waits != [] {
        if waits[0] < 0 { error := waits[0]; }
        waits := waits[1..];
      }
    }

    /** buffered_close, apart from the backend's own close. */
    method Close()
      requires Valid() && !freed
      modifies this, data
      ensures Valid() && View() == Drained(old(View())) && data == old(data) && freed
    {
      while error == 0 && size > 0
        invariant Valid() && data == old(data) && Drained(View()) == Drained(old(View()))
        decreases |answers| + (if error == 0 then 1 else 0)
      {
        FlushTakes(View(), View().buffer);
        Flush();
        if frozen { Wait(); }
      }
      freed := true;
    }

    /** buffered_rate_limit: 0 to go on, 1 to stop, negative for an error. */
    method RateLimit() returns (ret: int)
      requires Valid() && !freed
      ensures ret == 0 <==> error == 0 && !frozen && xfer <= limit
      ensures error != 0 ==> ret == error
      ensures ret != 0 && error == 0 ==> ret == 1
    {
      if error != 0 { return error; }
      if frozen { return 1; }
      if xfer > limit { return 1; }
      return 0;
    }

    /** buffered_rate_tick; `notify` says whether it calls put_ready. After an error it ends the session. */
    method RateTick() returns (notify: bool)
      requires Valid() && !freed
      modifies this, data
      ensures Valid() && View() == Ticked(old(View())) && data == old(data)
      ensures (notify <==> old(error) == 0 && !old(frozen)) && (freed <==> Frees(old(View()), Tick))
    {
      if error != 0 {
        Close();
        return false;
      }
      if frozen { return false; }
      xfer := 0;
      Flush();
      return true;
    }
  }
}
