/**
 * The buffered file cursor of components/mapmini/src/io_posix.c: a window of
 * at most `capacity` bytes of an open file, read by one fread per refill.
 *
 * The file is a byte sequence and `filePos` the position of its FILE*; the
 * window holds the `bytesRead` bytes just before `filePos`, and `bufferPos`
 * is the read offset inside the window.
 */
module FileIo {
  import opened Wrappers
  import opened Wire

  /** Smallest window the model uses: one length-prefixed string (up to 255 bytes) must fit. */
  const MinBufferSize: nat := 255

  /** Bytes one fread of `capacity` bytes returns at `pos`. */
  function Avail(file: seq<Byte>, capacity: nat, pos: nat): (n: nat)
    ensures n <= capacity
    ensures n > 0 ==> pos + n <= |file|
    ensures n < capacity ==> pos + n >= |file|
  {
    if pos >= |file| then 0
    else if |file| - pos < capacity then |file| - pos
    else capacity
  }

  class FileBuffer {
    /** FILE_READ_BUFFER_SIZE */
    const capacity: nat
    /** buffer_ptr */
    const buffer: array<Byte>
    /** The contents of the opened file. */
    var file: seq<Byte>
    /** fp != NULL */
    var isOpen: bool
    /** The position of fp. */
    var filePos: nat
    var bufferPos: nat
    var bytesRead: nat

    /** The buffer has the configured size. */
    ghost predicate Sane()
      reads this
    {
      buffer.Length == capacity && MinBufferSize <= capacity < U16
    }

    /** Sane, and the window holds exactly what one fread at its start returned. */
    ghost predicate Valid()
      reads this, buffer
    {
      Sane() &&
      bytesRead <= filePos &&
      bytesRead == Avail(file, capacity, filePos - bytesRead) &&
      (bytesRead > 0 ==> buffer[..bytesRead] == file[filePos - bytesRead..filePos])
    }

    /** Valid, open, and the read offset is inside the window: what the getters need. */
    ghost predicate Ready()
      reads this, buffer
    {
      Valid() && isOpen && bufferPos <= bytesRead
    }

    /** File offset of the first byte in the window. */
    function WindowStart(): nat
      reads this
      requires bytesRead <= filePos
    {
      filePos - bytesRead
    }

    /** File offset of the next byte the getters consume. */
    function Pos(): nat
      reads this
      requires bytesRead <= filePos
    {
      WindowStart() + bufferPos
    }

    constructor (capacity: nat)
      requires MinBufferSize <= capacity < U16
      ensures Valid() && fresh(buffer) && this.capacity == capacity
      ensures !isOpen && file == [] && filePos == 0 && bufferPos == 0 && bytesRead == 0
      ensures forall i :: 0 <= i < capacity ==> buffer[i] == 0
    {
      this.capacity := capacity;
      buffer := new Byte[capacity](_ => 0);
      file, isOpen, filePos, bufferPos, bytesRead := [], false, 0, 0, 0;
    }

    /**
     * init_buffer: open the file (None models a failing fopen) and fill the
     * window from its start.
     */
    method Init(f: Option<seq<Byte>>) returns (rc: int)
      requires Valid()
      modifies this, buffer
      ensures Valid()
      ensures rc == (if f.None? then 1 else 0)
      ensures bufferPos == 0 && isOpen == f.Some?
      ensures f.None? ==> bytesRead == 0 && buffer[..] == old(buffer[..])
      ensures f.Some? ==> file == f.value && WindowStart() == 0 && bytesRead == Avail(file, capacity, 0)
      ensures forall i :: bytesRead <= i < capacity ==> buffer[i] == old(buffer[i])
    {
      bufferPos, bytesRead := 0, 0;
      if f.None? {
        file, filePos, isOpen := [], 0, false;
        return 1;
      }
      file, filePos, isOpen := f.value, 0, true;
      Load();
      return 0;
    }

    /** load_buffer: one fread of up to `capacity` bytes at the file position. */
    method Load()
      requires Sane() && isOpen
      modifies this`filePos, this`bufferPos, this`bytesRead, buffer
      ensures Valid() && file == old(file) && isOpen
      ensures bufferPos == 0
      ensures WindowStart() == old(filePos)
      ensures bytesRead == Avail(file, capacity, old(filePos))
      ensures forall i :: bytesRead <= i < capacity ==> buffer[i] == old(buffer[i])
    {
      var n := Avail(file, capacity, filePos);
      forall i | 0 <= i < n {
        buffer[i] := file[filePos + i];
      }
      assert n > 0 ==> buffer[..n] == file[filePos..filePos + n];
      bufferPos := 0;
      bytesRead := n;
      filePos := filePos + n;
    }

    /** get_remaining_bytes: a uint16_t difference, which wraps when bufferPos > bytesRead. */
    function RemainingBytes(): (r: nat)
      reads this
      ensures r < U16
      ensures bufferPos <= bytesRead < U16 ==> r == bytesRead - bufferPos
      ensures bytesRead < bufferPos <= bytesRead + U16 ==> r == U16 - (bufferPos - bytesRead)
    {
      (bytesRead - bufferPos) % U16
    }

    /**
     * relative_reset_buffer: move fp back by `seek` bytes and refill. A seek
     * before the start of the file fails in fseek and leaves fp where it was.
     */
    method RelativeReset(seek: nat)
      requires Valid() && isOpen && seek < U16
      modifies this`filePos, this`bufferPos, this`bytesRead, buffer
      ensures Valid() && file == old(file) && isOpen
      ensures bufferPos == 0
      ensures WindowStart() == if seek <= old(filePos) then old(filePos) - seek else old(filePos)
      ensures bytesRead == Avail(file, capacity, WindowStart())
    {
      bufferPos := 0;
      if seek <= filePos {
        filePos := filePos - seek;
      }
      Load();
    }

    /** file_seek: move fp to an absolute offset and refill. */
    method Seek(target: nat)
      requires Valid() && isOpen
      modifies this`filePos, this`bufferPos, this`bytesRead, buffer
      ensures Ready() && file == old(file)
      ensures bufferPos == 0 && WindowStart() == target && Pos() == target
      ensures filePos == target + Avail(file, capacity, target)
    {
      filePos := target;
      Load();
    }

    /** file_close */
    method Close()
      modifies this`isOpen
      ensures !isOpen
    {
      isOpen := false;
    }

    /** Any stretch of the window is the same stretch of the file. */
    lemma WindowHolds(from: nat, n: nat)
      requires Valid() && n > 0 && from + n <= bytesRead
      ensures WindowStart() + from + n <= |file|
      ensures buffer[from..from + n] == file[WindowStart() + from..WindowStart() + from + n]
    {
      assert filePos <= |file|;
      var w := WindowStart();
      var window, stretch := buffer[..bytesRead], file[w..filePos];
      var got, want := buffer[from..from + n], file[w + from..w + from + n];
      forall k | 0 <= k < n
        ensures got[k] == want[k]
      {
        assert got[k] == window[from + k] && want[k] == stretch[from + k];
      }
    }

    /** n bytes that are in the window, consumed from it. */
    method Take(n: nat) returns (bs: seq<Byte>)
      requires Ready() && bufferPos + n <= bytesRead
      modifies this`bufferPos
      ensures Ready() && bufferPos == old(bufferPos) + n
      ensures Bytes(file, old(Pos()), n) == Some(Parsed(bs, Pos()))
    {
      bs := buffer[bufferPos..bufferPos + n];
      if n > 0 {
        WindowHolds(bufferPos, n);
      }
      bufferPos := bufferPos + n;
    }

    /**
     * The n bytes at Pos(), taken from the window when they are in it, and
     * otherwise after moving the window to Pos() with
     * relative_reset_buffer(get_remaining_bytes()).
     */
    method GetBytes(n: nat) returns (ok: bool, bs: seq<Byte>)
      requires Ready() && n <= capacity
      modifies this`filePos, this`bufferPos, this`bytesRead, buffer
      ensures Ready() && file == old(file)
      ensures Bytes(file, old(Pos()), n) == if ok then Some(Parsed(bs, Pos())) else None
      ensures old(bufferPos) + n <= old(bytesRead) ==>
                ok && WindowStart() == old(WindowStart()) && bytesRead == old(bytesRead)
    {
      if n <= bytesRead - bufferPos {
        bs := Take(n);
        return true, bs;
      }
      ghost var p := Pos();
      RelativeReset(RemainingBytes());
      assert WindowStart() == p;
      if n <= bytesRead {
        bs := Take(n);
        return true, bs;
      }
      assert p + n > |file|;
      return false, [];
    }

    /** get_uint8 .. get_uint64 and get_varint: n big-endian bytes. */
    method GetUint(n: nat) returns (ok: bool, v: nat)
      requires Ready() && n <= capacity
      modifies this`filePos, this`bufferPos, this`bytesRead, buffer
      ensures Ready() && file == old(file)
      ensures Uint(file, old(Pos()), n) == if ok then Some(Parsed(v, Pos())) else None
      ensures old(bufferPos) + n <= old(bytesRead) ==>
                ok && WindowStart() == old(WindowStart()) && bytesRead == old(bytesRead)
    {
      var bs;
      ok, bs := GetBytes(n);
      v := if ok then BigEndian(bs) else 0;
    }

    /** get_int32, get_int64: n big-endian bytes in two's complement. */
    method GetInt(n: nat) returns (ok: bool, v: int)
      requires Ready() && n <= capacity
      modifies this`filePos, this`bufferPos, this`bytesRead, buffer
      ensures Ready() && file == old(file)
      ensures Int(file, old(Pos()), n) == if ok then Some(Parsed(v, Pos())) else None
    {
      var u;
      ok, u := GetUint(n);
      v := if ok then Signed(u, n) else 0;
    }

    /** A one-byte length followed by get_string of that many bytes. */
    method GetString() returns (ok: bool, s: seq<Byte>)
      requires Ready()
      modifies this`filePos, this`bufferPos, this`bytesRead, buffer
      ensures Ready() && file == old(file)
      ensures Str(file, old(Pos())) == if ok then Some(Parsed(s, Pos())) else None
    {
      var len;
      ok, len := GetUint(1);
      if !ok {
        return false, [];
      }
      ok, s := GetBytes(len);
    }

    /** get_vbe_uint: bytes are consumed up to and including the first one below 0x80. */
    method GetVbe() returns (ok: bool, v: nat)
      requires Ready()
      modifies this`filePos, this`bufferPos, this`bytesRead, buffer
      ensures Ready() && file == old(file)
      ensures Vbe(file, old(Pos())) == if ok then Some(Parsed(v, Pos())) else None
      ensures ok && Pos() <= old(filePos) ==> filePos == old(filePos) && bytesRead == old(bytesRead)
    {
      ghost var f, start := file, Pos();
      ghost var f0, b0 := filePos, bytesRead;
      var acc: nat, scale: nat := 0, 1;
      while true
        invariant Ready() && file == f
        invariant Vbe(f, start) == Scaled(acc, scale, Vbe(f, Pos()))
        invariant Pos() <= f0 ==> filePos == f0 && bytesRead == b0
        decreases |f| - Pos()
      {
        ghost var p := Pos();
        var got: bool, b: nat := GetUint(1);
        UintOneByte(f, p);
        if !got {
          return false, 0;
        }
        assert b == f[p] && Pos() == p + 1;
        if b < 0x80 {
          v := Accumulate(acc, scale, b);
          VbeLast(f, start, p, acc, scale, b, v, Pos());
          return true, v;
        }
        var acc', scale' := Accumulate(acc, scale, b - 0x80), scale * 0x80;
        VbeAdvance(f, start, p, acc, scale, b, acc', scale', Pos());
        acc, scale := acc', scale';
      }
    }
  }
}
