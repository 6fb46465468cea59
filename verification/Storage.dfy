/** The byte store behind requests and responses: a vector with a read and a
    write cursor, whose cells beyond the write cursor keep stale bytes. */
module Storage {
  import opened Text

  const READ_BUFFER_SIZE := 1000000

  datatype StorageState = ReceiveDone | Closed | Receiving

  /** What one `write`, `send` or `read` does: it moves up to `n` bytes of those
      it was asked for (any smaller count can be had by choosing `n`), or fails. */
  datatype Io = Moved(n: nat) | Failed

  /** What one `recv` does. An empty piece is the peer's orderly shutdown. */
  datatype Recv = Piece(bytes: string) | RecvFailed

  predicate Receivable(r: Recv) {
    r.Piece? ==> |r.bytes| <= READ_BUFFER_SIZE
  }

  function RecvState(r: Recv): StorageState {
    match r
    case RecvFailed => Closed
    case Piece(bytes) =>
      if bytes == "" then Closed else if |bytes| == READ_BUFFER_SIZE then Receiving else ReceiveDone
  }

  function Min(a: nat, b: nat): nat {
    if a < b then a else b
  }

  /** Bytes a `write` or `send` takes from `unread` when asked for `goal`. */
  function Taken(unread: string, goal: nat, io: Io): (n: nat)
    ensures n <= |unread| && n <= goal
  {
    if io.Failed? then 0 else Min(io.n, Min(goal, |unread|))
  }

  /** What one read returns of the bytes ahead in a file; nothing when it fails. */
  function ReadNext(ahead: string, io: Io): string {
    if io.Failed? then "" else ahead[..Min(io.n, Min(READ_BUFFER_SIZE, |ahead|))]
  }

  /** An open regular file: its bytes and the offset of its descriptor. */
  class File {
    var content: string
    var offset: nat

    ghost predicate Valid()
      reads this
    {
      offset <= |content|
    }

    /** The bytes a reader has not been given yet. */
    ghost function Ahead(): string
      reads this
      requires Valid()
    {
      content[offset..]
    }

    constructor (content: string)
      ensures Valid() && this.content == content && offset == 0
    {
      this.content, offset := content, 0;
    }

    /** `read(fd, buffer, READ_BUFFER_SIZE)`, which may return less than is there. */
    method Read(n: nat) returns (piece: string)
      requires Valid()
      modifies this`offset
      ensures Valid()
      ensures piece + Ahead() == old(Ahead())
      ensures |piece| == Min(n, Min(READ_BUFFER_SIZE, old(|content| - offset)))
      ensures offset == old(offset) + |piece|
    {
      var count := Min(n, Min(READ_BUFFER_SIZE, |content| - offset));
      piece := content[offset..offset + count];
      offset := offset + count;
    }

    /** The three uses of `lseek`; a negative target is an error of the call. */
    method SeekCurrent(delta: int) returns (at: nat)
      requires Valid() && 0 <= offset + delta <= |content|
      modifies this`offset
      ensures Valid() && at == offset == old(offset) + delta
    {
      offset := offset + delta;
      at := offset;
    }

    method SeekEnd() returns (at: nat)
      modifies this`offset
      ensures Valid() && at == offset == |content|
    {
      offset := |content|;
      at := offset;
    }

    method SeekSet(target: nat)
      requires target <= |content|
      modifies this`offset
      ensures Valid() && offset == target
    {
      offset := target;
    }
  }

  class Storage {
    var cells: string
    var readPos: nat
    var writePos: nat
    var state: StorageState

    ghost predicate Valid()
      reads this
    {
      readPos <= writePos <= |cells|
    }

    /** Everything received since the last clear, and the part not yet consumed. */
    ghost function Held(): (s: string)
      reads this
      requires Valid()
      ensures |s| == writePos
    {
      cells[..writePos]
    }

    ghost function Unread(): (s: string)
      reads this
      requires Valid()
      ensures |s| == writePos - readPos
    {
      Held()[readPos..]
    }

    constructor ()
      ensures Valid() && Held() == "" && readPos == 0 && state == Receiving
    {
      cells, readPos, writePos, state := "", 0, 0, Receiving;
    }

    constructor From(source: string)
      ensures Valid() && Held() == source && readPos == 0 && state == Receiving
    {
      cells, readPos, writePos, state := source, 0, |source|, Receiving;
    }

    /** Moves the cursors only: the old bytes stay in the cells. */
    method Clear()
      modifies this`readPos, this`writePos
      ensures Valid() && Held() == "" && readPos == 0
    {
      writePos := 0;
      readPos := 0;
    }

    method SetReadPos(pos: nat)
      requires Valid() && pos <= writePos
      modifies this`readPos
      ensures Valid() && readPos == pos
    {
      readPos := pos;
    }

    /** Takes an `int`, whatever the caller computed. */
    method MoveReadPos(move: int)
      requires Valid() && 0 <= readPos + move <= writePos
      modifies this`readPos
      ensures Valid() && readPos == old(readPos) + move
    {
      readPos := readPos + move;
    }

    method Remains() returns (n: int)
      requires Valid()
      ensures n == Int32(|Unread()|)
    {
      n := Int32(writePos - readPos);
    }

    /** Overwrites stale cells first and grows the vector with what is left. */
    method Insert(source: string)
      requires Valid()
      modifies this`cells, this`writePos
      ensures Valid()
      ensures Held() == old(Held()) + source
      ensures Unread() == old(Unread()) + source
    {
      var i := 0;
      while writePos != |cells| && i != |source|
        invariant Valid() && i <= |source|
        invariant Held() == old(Held()) + source[..i]
      {
        cells := cells[writePos := source[i]];
        writePos, i := writePos + 1, i + 1;
        assert cells[..writePos] == cells[..writePos - 1] + [source[i - 1]];
        assert source[..i] == source[..i - 1] + [source[i - 1]];
      }
      cells := cells + source[i..];
      writePos := writePos + (|source| - i);
      assert source == source[..i] + source[i..];
      assert Held() == old(Held()) + source;
      assert Held()[readPos..] == old(Held())[readPos..] + source;
    }

    /** The line and its LF leave the front; `LineOf` and `AfterLine` say what that means. */
    method GetLine() returns (line: string)
      requires Valid()
      modifies this`readPos
      ensures Valid()
      ensures line == LineOf(old(Unread())) && Unread() == AfterLine(old(Unread()))
    {
      ghost var u := Unread();
      var i := readPos;
      while i < writePos
        invariant Valid() && Unread() == u && readPos == old(readPos)
        invariant readPos <= i <= writePos
        invariant forall k :: readPos <= k < i ==> cells[k] != LF
      {
        if cells[i] == LF {
          assert u[i - readPos] == LF;
          assert forall k :: 0 <= k < i - readPos ==> u[k] == cells[readPos + k];
          assert IndexOf(u, LF) == i - readPos;
          line := cells[readPos..i];
          assert line == u[..i - readPos];
          readPos := i + 1;
          assert Unread() == u[i + 1 - old(readPos)..];
          return;
        }
        i := i + 1;
      }
      assert forall k :: 0 <= k < |u| ==> u[k] == cells[readPos + k];
      line := "";
    }

    /** Searches what is held, reads the file once if that fails, and searches again. */
    method GetLineFile(file: File, io: Io) returns (line: string)
      requires Valid() && file.Valid()
      modifies this, file`offset
      ensures Valid() && file.Valid()
      ensures old(Held()) <= Held() && old(readPos) <= readPos
      ensures Held() + file.Ahead() == old(Held() + file.Ahead())
      ensures file.offset - writePos == old(file.offset - writePos)
      ensures Held() == old(Held()) + if HasLine(old(Unread())) then "" else ReadNext(old(file.Ahead()), io)
      ensures if HasLine(Held()[old(readPos)..])
              then line == LineOf(Held()[old(readPos)..])
                && Unread() == AfterLine(Held()[old(readPos)..])
                && state == old(state)
              else line == "" && state == Closed && readPos == old(readPos)
    {
      hide LineOf, AfterLine, HasLine;
      var found := HasLineNow();
      if found {
        line := GetLine();
        return;
      }
      if io.Failed? {
        state := Closed;
        return "";
      }
      ReadOn(file, io.n);
      found := HasLineNow();
      if found {
        line := GetLine();
      } else {
        state := Closed;
        line := "";
      }
    }

    /** One read of a file into the store. */
    method ReadOn(file: File, n: nat)
      requires Valid() && file.Valid()
      modifies this`cells, this`writePos, file`offset
      ensures Valid() && file.Valid()
      ensures Held() == old(Held()) + ReadNext(old(file.Ahead()), Moved(n))
      ensures Held() + file.Ahead() == old(Held() + file.Ahead())
      ensures file.offset - writePos == old(file.offset - writePos)
    {
      ghost var held, ahead := Held(), file.Ahead();
      var piece := file.Read(n);
      Insert(piece);
      assert held + (piece + file.Ahead()) == (held + piece) + file.Ahead();
      assert ahead[..|piece|] == (piece + file.Ahead())[..|piece|] == piece;
    }

    method HasLineNow() returns (found: bool)
      requires Valid()
      ensures found == HasLine(Unread())
    {
      found := IndexOf(cells[readPos..writePos], LF) < writePos - readPos;
    }

    /** `write` to a file: the bytes it took are the ones dropped from the front. */
    method MemToFile(goal: nat, io: Io) returns (moved: int, out: string)
      requires Valid()
      modifies this`readPos, this`state
      ensures Valid()
      ensures out + Unread() == old(Unread()) && |out| == Taken(old(Unread()), goal, io)
      ensures if io.Failed? then moved == -1 && state == Closed else moved == |out| && state == old(state)
    {
      var smallOne := if goal < writePos - readPos then goal else writePos - readPos;
      if io.Failed? {
        state := Closed;
        return -1, "";
      }
      moved := Min(io.n, smallOne);
      out := cells[readPos..readPos + moved];
      readPos := readPos + moved;
    }

    /** `send` to a socket. */
    method MemToSock(goal: nat, io: Io) returns (moved: int, out: string)
      requires Valid()
      modifies this`readPos, this`state
      ensures Valid()
      ensures out + Unread() == old(Unread()) && |out| == Taken(old(Unread()), goal, io)
      ensures if io.Failed? then moved == -1 && state == Closed else moved == |out| && state == old(state)
    {
      var smallOne := if goal < writePos - readPos then goal else writePos - readPos;
      if io.Failed? {
        state := Closed;
        return -1, "";
      }
      moved := Min(io.n, smallOne);
      out := cells[readPos..readPos + moved];
      readPos := readPos + moved;
    }

    /** Reads a whole buffer whatever goal it is given. */
    method FileToMem(file: File, io: Io) returns (moved: int)
      requires Valid() && file.Valid()
      modifies this`cells, this`writePos, this`state, file`offset
      ensures Valid() && file.Valid()
      ensures Held() + file.Ahead() == old(Held() + file.Ahead())
      ensures old(Held()) <= Held() && old(Unread()) <= Unread()
      ensures if io.Failed? then moved == -1 && state == Closed && Held() == old(Held())
              else moved == |Held()| - old(|Held()|) == Min(io.n, Min(READ_BUFFER_SIZE, |old(file.Ahead())|))
      ensures io.Moved? ==> state == old(state)
    {
      if io.Failed? {
        state := Closed;
        return -1;
      }
      ghost var held := Held();
      var piece := file.Read(io.n);
      Insert(piece);
      moved := |piece|;
      assert held + (piece + file.Ahead()) == (held + piece) + file.Ahead();
    }

    /** A full buffer leaves the state at Receiving, a shorter piece completes it. */
    method SockToMem(r: Recv)
      requires Valid() && Receivable(r)
      modifies this`cells, this`writePos, this`state
      ensures Valid() && state == RecvState(r)
      ensures Held() == old(Held()) + (if r.Piece? then r.bytes else "")
      ensures Unread() == old(Unread()) + (if r.Piece? then r.bytes else "")
    {
      if r.RecvFailed? || |r.bytes| == 0 {
        state := Closed;
      } else if |r.bytes| == READ_BUFFER_SIZE {
        state := Receiving;
      } else {
        state := ReceiveDone;
      }
      if r.Piece? && |r.bytes| > 0 {
        Insert(r.bytes);
      }
    }

    /** Shifts the unread bytes to the front, cell by cell, in place. */
    method PreserveRemains()
      requires Valid()
      modifies this`cells, this`readPos, this`writePos
      ensures Valid() && readPos == 0
      ensures Held() == Unread() == old(Unread())
    {
      var i := readPos;
      while i != writePos
        invariant readPos == old(readPos) <= i <= writePos == old(writePos) <= |cells| == |old(cells)|
        invariant forall k :: 0 <= k < i - readPos ==> cells[k] == old(cells)[readPos + k]
        invariant forall k :: i <= k < writePos ==> cells[k] == old(cells)[k]
      {
        cells := cells[i - readPos := cells[i]];
        i := i + 1;
      }
      writePos := i - readPos;
      readPos := 0;
      assert Held() == old(Unread());
    }
  }
}
