/**
 The buffered line reader. Its buffer is filled by reads that may return fewer bytes than asked for, or
 fail; every method is specified by where in the file the next line starts.
 */
module LineReading {
  import opened Wrappers
  import opened JsonValues
  import opened Sequences
  import opened Lines

  const KB8: nat := 8 * 1024

  datatype IoError = IoError

  // A file opened for reading. A read returns at least one byte before the end, and none at it.
  class File {
    const content: seq<Byte>
    var offset: nat
    // how often reading or seeking has failed
    ghost var failures: nat

    ghost predicate Valid()
      reads this
    {
      offset <= |content|
    }

    constructor (content: seq<Byte>)
      ensures Valid() && this.content == content && offset == 0
    {
      this.content := content;
      offset := 0;
      failures := 0;
    }

    method Read(max: nat) returns (r: Result<seq<Byte>, IoError>)
      requires Valid() && max > 0
      modifies this
      ensures Valid()
      ensures failures == old(failures) + if r.Err? then 1 else 0
      ensures r.Err? ==> offset == old(offset)
      ensures r.Ok? ==> offset == old(offset) + |r.value| && r.value == content[old(offset)..offset] && |r.value| <= max
      ensures r.Ok? ==> (r.value == [] <==> old(offset) == |content|)
    {
      var fails: bool := *;
      if fails {
        failures := failures + 1;
        return Err(IoError);
      }
      if offset == |content| {
        return Ok([]);
      }
      var n :| 0 < n <= max && n <= |content| - offset;
      r := Ok(content[offset..offset + n]);
      offset := offset + n;
    }

    // Reads until `n` bytes are there.
    method ReadExact(n: nat) returns (r: Result<seq<Byte>, IoError>)
      requires Valid()
      modifies this
      ensures Valid()
      ensures r.Ok? ==> offset == old(offset) + n && r.value == content[old(offset)..offset]
      ensures failures >= old(failures)
      ensures r.Err? <==> failures > old(failures) || old(offset) + n > |content|
      ensures n == 0 ==> failures == old(failures)
    {
      var data: seq<Byte> := [];
      while |data| < n
        invariant Valid() && |data| <= n
        invariant offset == old(offset) + |data| && data == content[old(offset)..offset] && failures == old(failures)
      {
        var more := Read(n - |data|);
        if more.Err? {
          return Err(IoError);
        }
        if more.value == [] {
          return Err(IoError);
        }
        data := data + more.value;
      }
      r := Ok(data);
    }

    method Seek(to: nat) returns (r: Result<nat, IoError>)
      requires Valid() && to <= |content|
      modifies this
      ensures Valid()
      ensures failures == old(failures) + if r.Err? then 1 else 0
      ensures (r == Err(IoError) && offset == old(offset)) || (r == Ok(to) && offset == to)
    {
      var fails: bool := *;
      if fails {
        failures := failures + 1;
        return Err(IoError);
      }
      offset := to;
      r := Ok(to);
    }
  }

  method FindNewline(buffer: seq<Byte>) returns (r: Option<nat>)
    ensures r.None? ==> NEWLINE !in buffer
    ensures r.Some? ==> r.value < |buffer| && buffer[r.value] == NEWLINE && NEWLINE !in buffer[..r.value]
  {
    var i := 0;
    while i < |buffer|
      invariant i <= |buffer| && NEWLINE !in buffer[..i]
    {
      if buffer[i] == NEWLINE {
        return Some(i);
      }
      i := i + 1;
    }
    r := None;
  }

  method StripLine(buffer: seq<Byte>, i: nat) returns (rawValue: seq<Byte>)
    requires i <= |buffer|
    ensures rawValue == Stripped(buffer[..i])
  {
    rawValue := buffer[..i];
    var i2 := i;
    while rawValue != [] && rawValue[|rawValue| - 1] in {NEWLINE, RETURN}
      invariant i2 <= i && rawValue == buffer[..i2] && Stripped(rawValue) == Stripped(buffer[..i])
    {
      i2 := i2 - 1;
      assert rawValue[..i2] == buffer[..i2];
      rawValue := buffer[..i2];
    }
  }

  // `Vec::resize` with zeros.
  function Resized(buffer: seq<Byte>, n: nat): (r: seq<Byte>)
    ensures |r| == n
    ensures forall k :: 0 <= k < n && k < |buffer| ==> r[k] == buffer[k]
  {
    if n <= |buffer| then buffer[..n] else buffer + seq(n - |buffer|, _ => 0)
  }

  // The buffer's first `len` bytes are those of the file from `start` on.
  ghost predicate Holds(buffer: seq<Byte>, len: nat, content: seq<Byte>, start: nat) {
    && len <= |buffer| && start + len <= |content|
    && forall k :: 0 <= k < len ==> buffer[k] == content[start + k]
  }

  lemma HeldPart(buffer: seq<Byte>, len: nat, content: seq<Byte>, start: nat, i: nat)
    requires Holds(buffer, len, content, start) && i <= len
    ensures buffer[..i] == content[start..start + i]
  {
  }

  lemma HeldRest(buffer: seq<Byte>, len: nat, content: seq<Byte>, start: nat, n: nat)
    requires Holds(buffer, len, content, start) && n <= len
    ensures Holds(buffer[n..], len - n, content, start + n)
  {
  }

  lemma HeldMore(buffer: seq<Byte>, len: nat, content: seq<Byte>, start: nat, data: seq<Byte>)
    requires Holds(buffer, len, content, start) && len + |data| <= |buffer|
    requires start + len + |data| <= |content| && data == content[start + len..start + len + |data|]
    ensures Holds(buffer[..len] + data + buffer[len + |data|..], len + |data|, content, start)
  {
  }

  lemma OnePlaceMore(content: seq<Byte>, start: nat, before: seq<Place>)
    requires start < |content|
    ensures before + [PlaceAt(content, start)] + PlacesFrom(content, Clip(content, After(content, start)))
         == before + PlacesFrom(content, start)
  {
    var next := After(content, start);
    assert PlacesFrom(content, Clip(content, next)) == PlacesFrom(content, next);
    assert before + [PlaceAt(content, start)] + PlacesFrom(content, next)
        == before + ([PlaceAt(content, start)] + PlacesFrom(content, next));
  }

  type Found = (Json, nat, nat)

  // What getting a value does to where the next line starts and to the position, and what it returns.
  ghost predicate Gets(
    content: seq<Byte>, decode: seq<Byte> -> Json, start: nat, position: nat, hint: nat,
    startAfter: nat, positionAfter: nat, r: Option<Result<Found, IoError>>)
    requires start <= |content|
  {
    match r
    case None => start == startAfter == |content|
    case Some(Err(_)) => hint == 0 ==> startAfter == start && positionAfter == position
    case Some(Ok((value, pos, length))) =>
      && start < |content|
      && length == PlaceAt(content, start).length
      && value == decode(Text(content, PlaceAt(content, start)))
      && startAfter == Clip(content, After(content, start))
      && pos == position + hint
      && positionAfter == pos + length + 1
  }

  class LineReader {
    var byteBuffer: seq<Byte>
    var bufDataLen: nat
    var position: nat
    var positions: seq<Place>
    var random: bool
    const reader: File
    const repeat: bool
    // text of a line to JSON, or a JSON string
    const decode: seq<Byte> -> Json

    ghost predicate Valid()
      reads this, reader
    {
      && reader.Valid()
      && bufDataLen <= |byteBuffer| && bufDataLen <= reader.offset
      && Holds(byteBuffer, bufDataLen, reader.content, reader.offset - bufDataLen)
    }

    // Where in the file the bytes not yet returned start.
    ghost function Start(): nat
      reads this, reader
      requires Valid()
    {
      reader.offset - bufDataLen
    }

    // `position` tells where the next line starts; it runs past the end after a line without newline.
    ghost predicate Aligned()
      reads this, reader
      requires Valid()
    {
      Start() == Clip(reader.content, position)
    }

    ghost function Now(): Reading
      reads this, reader
      requires Valid()
    {
      Reading(Start(), positions)
    }

    constructor Empty(reader: File, repeat: bool, decode: seq<Byte> -> Json)
      requires reader.Valid() && reader.offset == 0
      ensures Valid() && this.reader == reader && this.repeat == repeat && this.decode == decode
      ensures position == 0 && Start() == 0 && positions == [] && !random && bufDataLen == 0
    {
      this.byteBuffer := seq(KB8, _ => 0);
      this.bufDataLen := 0;
      this.position := 0;
      this.positions := [];
      this.random := false;
      this.reader := reader;
      this.repeat := repeat;
      this.decode := decode;
    }

    // Reads some more behind what the buffer holds.
    method Refill() returns (r: Result<nat, IoError>)
      requires Valid()
      modifies this`byteBuffer, this`bufDataLen, reader
      ensures Valid() && Start() == old(Start())
      ensures reader.failures == old(reader.failures) + if r.Err? then 1 else 0
      ensures r.Err? ==> reader.offset == old(reader.offset) && bufDataLen == old(bufDataLen)
      ensures r.Ok? ==> reader.offset == old(reader.offset) + r.value
      ensures r.Ok? ==> (r.value == 0 <==> old(reader.offset) == |reader.content|)
      ensures r == Ok(0) ==> bufDataLen < |byteBuffer|
    {
      var startLength := bufDataLen;
      var newLength := KB8 + startLength;
      byteBuffer := Resized(byteBuffer, newLength);
      ghost var start := Start();
      var data := reader.Read(newLength - startLength);
      if data.Err? {
        return Err(data.error);
      }
      var n := |data.value|;
      HeldMore(byteBuffer, startLength, reader.content, start, data.value);
      byteBuffer := byteBuffer[..startLength] + data.value + byteBuffer[startLength + n..];
      bufDataLen := bufDataLen + n;
      r := Ok(n);
    }

    // Looks for the end of the line in the buffer; at the end of the file, the line ends there.
    method LineInBuffer(eof: bool) returns (r: Option<nat>)
      requires Valid() && (eof ==> reader.offset == |reader.content| && bufDataLen < |byteBuffer|)
      ensures eof ==> r.Some?
      ensures !eof && r.Some? ==> r.value < bufDataLen
      ensures r.Some? ==>
                && r.value <= bufDataLen && r.value < |byteBuffer|
                && (r.value < bufDataLen || reader.offset == |reader.content|)
                && LineEnd(reader.content, Start()) == Start() + r.value
    {
      var newLineIndex := FindNewline(byteBuffer[..bufDataLen]);
      if newLineIndex.Some? || eof {
        var i := if newLineIndex.Some? then newLineIndex.value else bufDataLen;
        HeldPart(byteBuffer, bufDataLen, reader.content, Start(), i);
        assert byteBuffer[..bufDataLen][..i] == byteBuffer[..i];
        LineEndIsFirst(reader.content, Start(), Start() + i);
        return Some(i);
      }
      r := None;
    }

    // Takes `i` bytes, and the newline after them, out of the buffer.
    method TakeLine(i: nat) returns (value: Json)
      requires Valid() && i <= bufDataLen && i < |byteBuffer|
      requires i < bufDataLen || reader.offset == |reader.content|
      modifies this`byteBuffer, this`bufDataLen, this`position
      ensures Valid() && reader.offset == old(reader.offset)
      ensures Start() == Clip(reader.content, old(Start()) + i + 1)
      ensures position == old(position) + i + 1
      ensures value == decode(Stripped(reader.content[old(Start())..old(Start()) + i]))
    {
      HeldPart(byteBuffer, bufDataLen, reader.content, Start(), i);
      position := position + i + 1;
      var rawValue := StripLine(byteBuffer, i);
      value := decode(rawValue);
      Drain(i + 1);
    }

    method Drain(n: nat)
      requires Valid() && 0 < n <= |byteBuffer|
      modifies this`byteBuffer, this`bufDataLen
      ensures Valid()
      ensures Start() == if n <= old(bufDataLen) then old(Start()) + n else reader.offset
    {
      if n <= bufDataLen {
        HeldRest(byteBuffer, bufDataLen, reader.content, Start(), n);
      }
      byteBuffer := byteBuffer[n..];
      bufDataLen := bufDataLen - (if bufDataLen < n then bufDataLen else n);
    }

    // The next line, whether or not a hint says how long it is: its value, where it starts and its length.
    method GetValue(sizeHint: Option<nat>) returns (r: Option<Result<Found, IoError>>)
      requires Valid() && (sizeHint.Some? ==> bufDataLen == 0)
      modifies this`byteBuffer, this`bufDataLen, this`position, reader
      ensures Valid()
      ensures Gets(reader.content, decode, old(Start()), old(position),
                   if sizeHint.Some? then sizeHint.value else 0, Start(), position, r)
      ensures reader.failures >= old(reader.failures)
      ensures r.Some? && r.value.Err? <==>
                || reader.failures > old(reader.failures)
                || (sizeHint.Some? && old(Start()) + sizeHint.value > |reader.content|)
    {
      if sizeHint.Some? {
        var failed := Prefetch(sizeHint.value);
        if failed {
          return Some(Err(IoError));
        }
      }
      r := ReadLine();
    }

    // The loop of `get_value`: reads on until the buffer holds the end of the line or the file has ended.
    method ReadLine() returns (r: Option<Result<Found, IoError>>)
      requires Valid()
      modifies this`byteBuffer, this`bufDataLen, this`position, reader
      ensures Valid()
      ensures Gets(reader.content, decode, old(Start()), old(position), 0, Start(), position, r)
      ensures reader.failures == old(reader.failures) + if r.Some? && r.value.Err? then 1 else 0
    {
      ghost var start := Start();
      var pos := position;
      var eof := false;
      while true
        invariant Valid() && Start() == start && position == pos && reader.failures == old(reader.failures)
        invariant eof ==> reader.offset == |reader.content| && bufDataLen < |byteBuffer|
        decreases |reader.content| - reader.offset, if eof then 0 else 1
      {
        if eof && bufDataLen == 0 {
          return None;
        }
        var i := LineInBuffer(eof);
        if i.Some? {
          assert bufDataLen > 0;
          var value := TakeLine(i.value);
          return Some(Ok((value, pos, i.value)));
        }
        var n := Refill();
        if n.Err? {
          return Some(Err(n.error));
        }
        if n.value == 0 {
          eof := true;
        }
      }
    }

    // The hint's bytes are read in one go.
    method Prefetch(hint: nat) returns (failed: bool)
      requires Valid() && bufDataLen == 0
      modifies this`byteBuffer, this`bufDataLen, this`position, reader
      ensures Valid() && position == old(position) + hint
      ensures !failed ==> Start() == old(Start()) && bufDataLen == hint
      ensures reader.failures >= old(reader.failures)
      ensures failed <==> reader.failures > old(reader.failures) || old(Start()) + hint > |reader.content|
      ensures hint == 0 ==> !failed
    {
      if hint >= |byteBuffer| {
        byteBuffer := byteBuffer + seq(hint - |byteBuffer|, _ => 0);
      }
      position := position + hint;
      var data := reader.ReadExact(hint);
      if data.Err? {
        return true;
      }
      byteBuffer := data.value + byteBuffer[hint..];
      bufDataLen := hint;
      assert byteBuffer[..bufDataLen] == data.value;
      failed := false;
    }

    method Seek(to: nat) returns (r: Result<nat, IoError>)
      requires Valid() && to <= |reader.content|
      modifies this`bufDataLen, this`position, reader
      ensures Valid() && bufDataLen == 0
      ensures reader.failures == old(reader.failures) + if r.Err? then 1 else 0
      ensures if r.Ok? then Start() == to && position == to else Start() == old(reader.offset)
    {
      bufDataLen := 0;
      r := reader.Seek(to);
      if r.Ok? {
        position := r.value;
      }
    }

    // Opening a file: in random mode the whole file is read once, and every line's place recorded.
    static method New(random: bool, repeat: bool, reader: File, decode: seq<Byte> -> Json)
      returns (r: Result<LineReader, IoError>)
      requires reader.Valid() && reader.offset == 0
      modifies reader
      ensures r.Ok? ==> fresh(r.value) && r.value.reader == reader && r.value.Valid()
      ensures r.Ok? ==> r.value.repeat == repeat && r.value.decode == decode
      ensures r.Ok? && random ==>
                r.value.positions == Places(reader.content) && (r.value.random <==> r.value.positions != [])
      ensures r.Ok? && !random ==> !r.value.random && r.value.Start() == 0 && r.value.Aligned()
      ensures r.Ok? && !random ==> r.value.positions == if repeat then [Place(0, 0)] else []
      ensures r.Ok? ==> r.value.Ready() && r.value.HasPlaces() && (r.value.random <==> random && reader.content != [])
      ensures r.Ok? ==> Begins(reader.content, r.value.random, r.value.Now())
      ensures reader.failures >= old(reader.failures)
      ensures r.Err? <==> reader.failures > old(reader.failures)
    {
      var jr := new LineReader.Empty(reader, repeat, decode);
      if random {
        var indexed := jr.IndexLines();
        if indexed.Err? {
          return Err(indexed.error);
        }
        forall k | 0 <= k < |jr.positions|
          ensures IsPlace(reader.content, jr.positions[k])
        {
          PlacesAreLines(reader.content, 0, k);
        }
        if jr.positions != [] {
          var i :| 0 <= i < |jr.positions|;
          var sought := jr.Seek(jr.positions[i].start);
          if sought.Err? {
            return Err(sought.error);
          }
          jr.random := true;
        }
      } else if repeat {
        jr.positions := jr.positions + [Place(0, 0)];
      }
      r := Ok(jr);
    }

    method IndexLines() returns (r: Result<(), IoError>)
      requires Valid() && Start() == 0 && Aligned() && positions == []
      modifies this`byteBuffer, this`bufDataLen, this`position, this`positions, reader
      ensures Valid()
      ensures r.Ok? ==> positions == Places(reader.content)
      ensures reader.failures >= old(reader.failures)
      ensures r.Err? <==> reader.failures > old(reader.failures)
    {
      while true
        invariant Valid() && Aligned() && reader.failures == old(reader.failures)
        invariant positions + PlacesFrom(reader.content, Start()) == Places(reader.content)
        decreases |reader.content| - Start()
      {
        ghost var start, before := Start(), positions;
        var value := GetValue(None);
        match value {
          case Some(Ok((_, pos, length))) =>
            assert pos == start && Place(pos, length) == PlaceAt(reader.content, start);
            positions := positions + [Place(pos, length)];
            OnePlaceMore(reader.content, start, before);
          case Some(Err(e)) =>
            return Err(e);
          case None =>
            return Ok(());
        }
      }
    }

    // The places are of lines of this file, or the one that stands for its beginning.
    ghost predicate Ready()
      reads this, reader
    {
      && Valid()
      && if random then forall k :: 0 <= k < |positions| ==> IsPlace(reader.content, positions[k])
         else positions == if repeat && positions != [] then [Place(0, 0)] else []
    }

    // A reader that repeats has a place to go back to, unless the file is empty.
    ghost predicate HasPlaces()
      reads this, reader
    {
      !random && repeat && positions == [] ==> reader.content == []
    }

    // The next value, as an outcome in the file.
    ghost predicate Returns(r: Option<Result<Json, IoError>>, outcome: Outcome)
      reads reader
    {
      match outcome
      case Ended => r == None
      case Failed => r.Some? && r.value.Err?
      case Line(at) =>
        && at.start + at.length <= |reader.content|
        && r == Some(Ok(decode(Text(reader.content, at))))
    }

    method Next() returns (r: Option<Result<Json, IoError>>, ghost outcome: Outcome)
      requires Ready() && HasPlaces()
      modifies this, reader
      ensures Ready() && HasPlaces() && random == old(random) && (!random ==> positions == old(positions))
      ensures Nexts(reader.content, random, repeat, old(Now()), Now(), outcome)
      ensures reader.failures >= old(reader.failures)
      ensures Returns(r, outcome) && (outcome == Failed <==> reader.failures > old(reader.failures))
    {
      if random {
        r, outcome := NextRandom();
        return;
      }
      var result := GetValue(None);
      outcome := OutcomeOf(result, old(Start()));
      if result.None? && repeat {
        if positions != [] {
          var sought := Seek(positions[0].start);
          if sought.Err? {
            return Some(Err(sought.error)), Failed;
          }
          result := GetValue(Some(positions[0].length));
          outcome := OutcomeOf(result, 0);
        } else {
          return None, Ended;
        }
      }
      r := ValueOf(result);
    }

    ghost function OutcomeOf(r: Option<Result<Found, IoError>>, start: nat): Outcome
    {
      match r
      case None => Ended
      case Some(Err(_)) => Failed
      case Some(Ok((_, _, length))) => Line(Place(start, length))
    }

    function ValueOf(r: Option<Result<Found, IoError>>): Option<Result<Json, IoError>> {
      match r
      case None => None
      case Some(Err(e)) => Some(Err(e))
      case Some(Ok((v, _, _))) => Some(Ok(v))
    }

    method NextRandom() returns (r: Option<Result<Json, IoError>>, ghost outcome: Outcome)
      requires Ready() && random
      modifies this, reader
      ensures Ready() && random
      ensures Nexts(reader.content, true, repeat, old(Now()), Now(), outcome)
      ensures reader.failures >= old(reader.failures)
      ensures Returns(r, outcome) && (outcome == Failed <==> reader.failures > old(reader.failures))
    {
      if positions == [] {
        return None, Ended;
      }
      var sample: nat := *;
      var i := sample % |positions|;
      var Place(pos, size) := positions[i];
      if !repeat {
        positions := Without(positions, i);
      }
      var sought := Seek(pos);
      if sought.Err? {
        return Some(Err(sought.error)), Failed;
      }
      var result := GetValue(Some(size));
      outcome := OutcomeOf(result, pos);
      r := ValueOf(result);
    }

    // Sends the values on into a channel that takes `takes` of them, until the file ends or a read fails.
    method Forward(takes: nat) returns (sent: seq<Json>, ending: Ending, ghost lines: seq<Place>)
      requires Ready() && HasPlaces() && Begins(reader.content, random, Now())
      modifies this, reader
      ensures AreTexts(sent, lines, reader.content, decode)
      ensures |sent| <= takes && (ending == Closed ==> |sent| == takes) && ending != CannotOpen
      ensures reader.failures >= old(reader.failures)
      ensures ending == ReadFailed <==> reader.failures > old(reader.failures)
      ensures SendsLines(reader.content, old(random), repeat, lines, ending == Finished)
    {
      ghost var (content, drawing) := (reader.content, random);
      ghost var states, outcomes := [Now()], [];
      sent, lines := [], [];
      while true
        invariant Ready() && HasPlaces() && random == drawing && reader.failures == old(reader.failures)
        invariant Recorded(content, drawing, repeat, states, outcomes, Now(), lines)
        invariant |sent| <= takes && AreTexts(sent, lines, content, decode)
        decreases takes - |sent|
      {
        ghost var before := Now();
        ghost var outcome;
        var value;
        value, outcome := Next();
        ghost var after := Now();
        RecordMore(content, drawing, repeat, states, outcomes, before, lines, after, outcome);
        match value {
          case None =>
            ending := Finished;
            return;
          case Some(Err(_)) =>
            ending := ReadFailed;
            return;
          case Some(Ok(v)) =>
            if |sent| == takes {
              ending := Closed;
              return;
            }
            states, outcomes := states + [after], outcomes + [outcome];
            TextsMore(sent, lines, content, decode, v, outcome.at);
            sent, lines := sent + [v], lines + [outcome.at];
        }
      }
    }
  }

  // How forwarding a file ends. The channel it goes to may be closed at any time.
  datatype Ending = CannotOpen | ReadFailed | Finished | Closed

  ghost predicate AreTexts(values: seq<Json>, lines: seq<Place>, content: seq<Byte>, decode: seq<Byte> -> Json) {
    && |values| == |lines|
    && forall k :: 0 <= k < |lines| ==>
         lines[k].start + lines[k].length <= |content| && values[k] == decode(Text(content, lines[k]))
  }

  lemma TextsMore(
    values: seq<Json>, lines: seq<Place>, content: seq<Byte>, decode: seq<Byte> -> Json, v: Json, at: Place)
    requires AreTexts(values, lines, content, decode)
    requires at.start + at.length <= |content| && v == decode(Text(content, at))
    ensures AreTexts(values + [v], lines + [at], content, decode)
  {
  }

  // A file provider: a reader is opened and its values are sent on.
  method ForwardFile(reader: File, random: bool, repeat: bool, decode: seq<Byte> -> Json, takes: nat)
    returns (sent: seq<Json>, ending: Ending, ghost lines: seq<Place>)
    requires reader.Valid() && reader.offset == 0
    modifies reader
    ensures AreTexts(sent, lines, reader.content, decode)
    ensures |sent| <= takes && (ending == Closed ==> |sent| == takes)
    ensures ending in {CannotOpen, ReadFailed} <==> reader.failures > old(reader.failures)
    ensures SendsLines(reader.content, random && reader.content != [], repeat, lines, ending == Finished)
  {
    var attempt := LineReader.New(random, repeat, reader, decode);
    if attempt.Err? {
      NothingSent(reader.content, random && reader.content != [], repeat);
      return [], CannotOpen, [];
    }
    sent, ending, lines := attempt.value.Forward(takes);
  }

  lemma NothingSent(content: seq<Byte>, random: bool, repeat: bool)
    requires random ==> content != []
    ensures SendsLines(content, random, repeat, [], false)
  {
  }
}
