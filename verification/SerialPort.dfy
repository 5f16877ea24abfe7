/** The serial thread's buffers and the two branches of its poll loop (src/para_serial.c:104-200). */
module SerialPort {
  import opened CText
  import opened Framing


  class Port {
    const buffer: array<char>
    const input: array<char>
    var inputPos: nat
    /** The frames pushed to the manager, oldest first. */
    var frames: seq<string>
    /** The bytes written to the device. */
    var written: string

    ghost predicate Valid()
      reads this, input
    {
      && buffer.Length == BUFF_LEN && input.Length == INPUT_LEN && buffer != input
      && inputPos <= INPUT_LEN - 2
      && (forall k :: inputPos <= k < INPUT_LEN ==> input[k] == NUL)
    }

    /** The bytes of the line being read. */
    ghost function Pending(): string
      reads this, input
      requires Valid()
    {
      input[..inputPos]
    }

    constructor ()
      ensures Valid() && Pending() == "" && frames == [] && written == ""
      ensures fresh(buffer) && fresh(input)
    {
      buffer := new char[BUFF_LEN](_ => NUL);
      input := new char[INPUT_LEN](_ => NUL);
      inputPos, frames, written := 0, [], "";
    }

    method ClearInput()
      requires input.Length == INPUT_LEN && buffer.Length == BUFF_LEN && buffer != input
      modifies this`inputPos, input
      ensures Valid() && inputPos == 0
    {
      forall k | 0 <= k < input.Length {
        input[k] := NUL;
      }
      inputPos := 0;
    }

    /** `br` bytes of `buffer` have just been read; none when `br` is zero or negative. */
    method ReadBranch(br: int)
      requires Valid() && br <= buffer.Length
      modifies this`inputPos, this`frames, input, buffer
      ensures Valid()
      ensures br <= 0 ==> Pending() == old(Pending()) && frames == old(frames) && buffer[..] == old(buffer[..])
      ensures br > 0 ==>
                && Framed(Pending(), frames)
                   == (var r := FeedChunk(old(Pending()), old(buffer[..br])); Framed(r.pending, old(frames) + r.frames))
                && forall k :: 0 <= k < BUFF_LEN ==> buffer[k] == NUL
    {
      if br > 0 {
        ghost var chunk := buffer[..br];
        ghost var total := FeedChunk(Pending(), chunk);
        var i := 0;
        while i < br
          invariant 0 <= i <= br
          invariant Valid() && buffer[..br] == chunk
          invariant old(frames) <= frames
          invariant var r := FeedChunk(Pending(), chunk[i..]);
                    total == Framed(r.pending, frames[|old(frames)|..] + r.frames)
          decreases br - i
        {
          var c := buffer[i];
          assert chunk[i..][0] == c && chunk[i..][1..] == chunk[i + 1..];
          ghost var p := Pending();
          ghost var sent := frames[|old(frames)|..];
          if c == CR {
            frames := frames + [input[..inputPos]];
            ClearInput();
            assert Pending() == "";
            assert frames[|old(frames)|..] == sent + [p];
          } else if c != NUL {
            input[inputPos] := c;
            inputPos := inputPos + 1;
            if inputPos >= INPUT_LEN - 1 {
              ClearInput();
              assert Pending() == "";
              assert total == Framed("", sent);
              break;
            }
            assert Pending() == p + [c];
          } else {
            assert total == Framed(p, sent);
            break;
          }
          i := i + 1;
        }
        assert i >= br ==> chunk[i..] == "";
        assert total == Framed(Pending(), frames[|old(frames)|..]);
        forall k | 0 <= k < buffer.Length {
          buffer[k] := NUL;
        }
      }
    }

    /** A message taken from the request queue, of which the device takes `taken` bytes; an empty one writes nothing. */
    method WriteBranch(message: string, taken: nat)
      requires Valid()
      modifies this`written
      ensures written == old(written) + if message == "" then "" else Cut(taken, message + [CR])
    {
      if |message| > 0 {
        var output := new char[|message| + 1](
          i requires 0 <= i < |message| + 1 => if i < |message| then message[i] else NUL);
        output[|message|] := CR;
        assert output[..] == message + [CR];
        written := written + output[..Min(taken, output.Length)];
        assert output[..Min(taken, output.Length)] == output[..][..Min(taken, output.Length)];
      }
    }
  }
}
