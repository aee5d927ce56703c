/** Comparison of two files through fixed-size buffers filled by short reads. */
module ArchiveCompare {
  import opened Prelude

  newtype byte = x: int | 0 <= x < 256

  const CMP_BUF_SIZE := 4096

  /** The kernel's choices: what the i-th read of a file is to return. */
  type Schedule = nat -> int

  /**
   read(2): a negative choice is an error, 0 comes only at end of file, and
   otherwise any positive count up to what is wanted and left may come back.
   */
  function ReadCount(choice: int, want: nat, left: nat): (n: int)
    requires 0 < want
    ensures n <= want && n <= left
    ensures n < 0 <==> choice < 0
    ensures n == 0 <==> choice >= 0 && left == 0
  {
    if choice < 0 then -1
    else if left == 0 then 0
    else 1 + choice % (if want < left then want else left)
  }

  function Min(a: nat, b: nat): nat {
    if a < b then a else b
  }

  /** The inner loop: fill the buffer from `pos`, or to end of file. */
  method Fill(buf: array<byte>, content: seq<byte>, pos: nat, schedule: Schedule, calls: nat)
    returns (ok: bool, len: nat, calls': nat)
    requires buf.Length == CMP_BUF_SIZE && pos <= |content|
    modifies buf
    ensures !ok ==> exists i :: i >= calls && schedule(i) < 0
    ensures ok ==> len == Min(CMP_BUF_SIZE, |content| - pos) && buf[..len] == content[pos..pos + len]
    ensures calls <= calls'
  {
    ok, len, calls' := true, 0, calls;
    while len < CMP_BUF_SIZE
      invariant 0 <= len <= CMP_BUF_SIZE && pos + len <= |content|
      invariant buf[..len] == content[pos..pos + len]
      invariant calls <= calls'
      decreases |content| - pos - len
    {
      var nbytes := ReadCount(schedule(calls'), CMP_BUF_SIZE - len, |content| - pos - len);
      if nbytes < 0 {
        ok := false;
        return;
      }
      calls' := calls' + 1;
      if nbytes == 0 {
        break;
      }
      forall i | 0 <= i < nbytes {
        buf[len + i] := content[pos + len + i];
      }
      assert forall i :: 0 <= i < len + nbytes ==> buf[i] == content[pos + i];
      len := len + nbytes;
    }
  }

  /**
   compare_files: for every schedule of short reads the answer, if no read
   fails, is whether the contents are equal.
   */
  method CompareFiles(file1: seq<byte>, file2: seq<byte>, schedule1: Schedule, schedule2: Schedule)
    returns (same: Option<bool>)
    ensures same.Some? ==> (same.value <==> file1 == file2)
    ensures same.None? ==> exists i: nat :: schedule1(i) < 0 || schedule2(i) < 0
  {
    var buf1, buf2 := new byte[CMP_BUF_SIZE](_ => 0), new byte[CMP_BUF_SIZE](_ => 0);
    var pos, calls1, calls2 := 0, 0, 0;
    while true
      invariant 0 <= pos <= |file1| && pos <= |file2|
      invariant file1[..pos] == file2[..pos]
      decreases |file1| - pos
    {
      var ok1, len1, ok2, len2;
      ok1, len1, calls1 := Fill(buf1, file1, pos, schedule1, calls1);
      if !ok1 {
        return None;
      }
      ok2, len2, calls2 := Fill(buf2, file2, pos, schedule2, calls2);
      if !ok2 {
        return None;
      }
      if len1 != len2 || buf1[..len1] != buf2[..len1] {
        return Some(false);
      } else if len1 == 0 {
        assert file1[..pos] == file1 && file2[..pos] == file2;
        return Some(true);
      }
      ExtendPrefix(file1, file2, pos, len1);
      pos := pos + len1;
    }
  }

  lemma ExtendPrefix(a: seq<byte>, b: seq<byte>, pos: nat, len: nat)
    requires pos + len <= |a| && pos + len <= |b|
    requires a[..pos] == b[..pos] && a[pos..pos + len] == b[pos..pos + len]
    ensures a[..pos + len] == b[..pos + len]
  {
    assert a[..pos + len] == a[..pos] + a[pos..pos + len];
    assert b[..pos + len] == b[..pos] + b[pos..pos + len];
  }
}
