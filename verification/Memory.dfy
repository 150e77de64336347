/** Bytes at addresses, or at offsets in a file. */
module Memory {
  import opened Prelude

  function Overwrite(file: map<int, byte>, at: int, bytes: seq<byte>): map<int, byte>
    decreases |bytes|
  {
    if bytes == [] then file else Overwrite(file[at := bytes[0]], at + 1, bytes[1..])
  }

  function Fetch(file: map<int, byte>, i: int): Option<byte> {
    if i in file then Some(file[i]) else None
  }

  lemma {:induction false} OverwriteAppend(file: map<int, byte>, at: int, a: seq<byte>, b: seq<byte>)
    ensures Overwrite(Overwrite(file, at, a), at + |a|, b) == Overwrite(file, at, a + b)
    decreases |a|
  {
    if a == [] {
      assert a + b == b;
    } else {
      assert (a + b)[1..] == a[1..] + b;
      OverwriteAppend(file[at := a[0]], at + 1, a[1..], b);
    }
  }

  lemma {:induction false} OverwriteFetch(file: map<int, byte>, at: int, bytes: seq<byte>, i: int)
    ensures Fetch(Overwrite(file, at, bytes), i)
         == if at <= i < at + |bytes| then Some(bytes[i - at]) else Fetch(file, i)
    decreases |bytes|
  {
    if bytes != [] {
      OverwriteFetch(file[at := bytes[0]], at + 1, bytes[1..], i);
    }
  }

  /** The file, read back: bytes that were never written are zero. */
  ghost predicate IsFileOf(image: seq<byte>, file: map<int, byte>) {
    && (forall i <- file :: 0 <= i < |image|)
    && (forall i | 0 <= i < |image| :: image[i] == if i in file then file[i] else 0)
    && (image == [] || |image| - 1 in file)
  }

  lemma HasMember(s: set<int>)
    ensures s == {} || exists i: int :: i in s
  {
    if !exists i: int :: i in s {
      assert s == {};
    }
  }

  method ReadBack(file: map<int, byte>) returns (image: seq<byte>)
    requires forall i <- file :: 0 <= i
    ensures IsFileOf(image, file)
  {
    var size := 0;
    var left: set<int> := file.Keys;
    while left != {}
      invariant forall i <- left :: i in file
      invariant 0 <= size && (size == 0 || size - 1 in file)
      invariant forall i | i in file :: i in left || i < size
      decreases |left|
    {
      HasMember(left);
      var i: int :| i in left;
      if i >= size {
        size := i + 1;
      }
      left := left - {i};
    }
    image := seq(size, i requires 0 <= i < size => if i in file then file[i] else 0);
  }
}
