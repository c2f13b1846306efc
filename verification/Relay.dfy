/** Copying a file from one side to another in chunks, resumably. */
module Relay {
  import opened Wrappers

  type Byte = bv8
  type Bytes = seq<Byte>

  const RELAY_CHUNK: nat := 262144

  function Min(a: nat, b: nat): nat { if a < b then a else b }

  /** The file with `data` written over it from `offset` on. */
  function Written(file: Bytes, offset: nat, data: Bytes): Bytes
    requires offset <= |file|
  {
    file[..offset] + data + if offset + |data| < |file| then file[offset + |data|..] else []
  }

  lemma WrittenAtEnd(file: Bytes, data: Bytes)
    ensures Written(file, |file|, data) == file + data
  {
  }

  /** One file that may not be there yet. */
  class Target {
    var content: Option<Bytes>

    constructor (content: Option<Bytes>)
      ensures this.content == content
    {
      this.content := content;
    }

    /** Opened for writing, a file starts empty. */
    method Create()
      modifies this
      ensures content == Some([])
    {
      content := Some([]);
    }

    method WriteAt(offset: nat, data: Bytes)
      requires content.Some? && offset <= |content.value|
      modifies this
      ensures content == Some(Written(old(content).value, offset, data))
    {
      var file := content.value;
      content := Some(file[..offset] + data + if offset + |data| < |file| then file[offset + |data|..] else []);
    }
  }

  /** How a run goes: how much each read yields, and after how many chunks it is cancelled, if at all. */
  datatype Pace = Pace(sizes: seq<nat>, cancelAfter: Option<nat>)

  /** A read yields something as long as there is something, and never more than asked for. */
  function ReadSize(pace: Pace, turn: nat, want: nat): (n: nat)
    requires want > 0
    ensures 0 < n <= want
  {
    var asked := if turn < |pace.sizes| then pace.sizes[turn] else want;
    if asked == 0 then 1 else Min(asked, want)
  }

  /** Whether a resumed run goes on from what is there, and from where. */
  function ResumesAt(there: Option<Bytes>, total: nat, resume: bool): nat {
    if resume && there.Some? && 0 < |there.value| <= total then |there.value| else 0
  }

  /** What is at the destination after `moved` bytes: what was kept, then the source from there. */
  function Partial(there: Option<Bytes>, src: Bytes, resume: bool, moved: nat): Bytes
    requires ResumesAt(there, |src|, resume) + moved <= |src|
  {
    var start := ResumesAt(there, |src|, resume);
    (if start > 0 then there.value else []) + src[start..start + moved]
  }

  lemma PartialStarts(there: Option<Bytes>, src: Bytes, resume: bool)
    ensures Partial(there, src, resume, 0) == if ResumesAt(there, |src|, resume) > 0 then there.value else []
  {
  }

  lemma PartialGrows(there: Option<Bytes>, src: Bytes, resume: bool, moved: nat, n: nat)
    requires ResumesAt(there, |src|, resume) + moved + n <= |src|
    ensures
      var start := ResumesAt(there, |src|, resume);
      && |Partial(there, src, resume, moved)| == start + moved
      && Partial(there, src, resume, moved + n) ==
        Partial(there, src, resume, moved) + src[start + moved..start + moved + n]
  {
    var start := ResumesAt(there, |src|, resume);
    assert src[start..start + moved] + src[start + moved..start + moved + n] == src[start..start + moved + n];
  }

  /** Copy `src` to the destination; `Err` when cancelled. `moved` counts the
      bytes written either way. */
  method RelayFile(src: Bytes, dst: Target, resume: bool, pace: Pace) returns (r: Result<nat, ()>, moved: nat)
    modifies dst
    ensures ResumesAt(old(dst.content), |src|, resume) + moved <= |src|
    ensures dst.content == Some(Partial(old(dst.content), src, resume, moved))
    ensures r.Ok? ==> r.value == moved && ResumesAt(old(dst.content), |src|, resume) + moved == |src|
    ensures r.Err? ==> pace.cancelAfter.Some?
    ensures pace.cancelAfter.None? ==> r.Ok?
  {
    var total := |src|;
    var offset := ResumesAt(dst.content, total, resume);
    ghost var there, start := dst.content, offset;
    if offset == 0 {
      dst.Create();
    }
    moved := 0;
    PartialStarts(there, src, resume);
    var turn := 0;
    while offset < total
      invariant start <= offset == start + moved <= total
      invariant dst.content == Some(Partial(there, src, resume, moved))
      decreases total - offset
    {
      if pace.cancelAfter == Some(turn) {
        return Err(()), moved;
      }
      var want := Min(total - offset, RELAY_CHUNK);
      var buf := src[offset..offset + ReadSize(pace, turn, want)];
      PartialGrows(there, src, resume, moved, |buf|);
      WrittenAtEnd(dst.content.value, buf);
      dst.WriteAt(offset, buf);
      offset := offset + |buf|;
      moved := moved + |buf|;
      turn := turn + 1;
    }
    r := Ok(moved);
  }

  /** The destination is absent or holds the beginning of the source. */
  predicate Resumable(there: Option<Bytes>, src: Bytes) { there.Some? ==> there.value <= src }

  /** A finished run leaves the source at the destination exactly when what it
      went on from was the source's beginning. */
  lemma FinishedIsSourceExactly(there: Option<Bytes>, src: Bytes, resume: bool)
    ensures
      var start := ResumesAt(there, |src|, resume);
      Partial(there, src, resume, |src| - start) == src <==> (start > 0 ==> there.value <= src)
  {
    var start := ResumesAt(there, |src|, resume);
    var whole := Partial(there, src, resume, |src| - start);
    assert src[start..|src|] == src[start..];
    if start > 0 {
      if there.value <= src { assert src == there.value + src[|there.value|..]; }
      if whole == src { assert there.value == whole[..start]; }
    }
  }

  /** A resumed run on a beginning of the source leaves a longer beginning. */
  lemma ResumedStaysResumable(there: Option<Bytes>, src: Bytes, moved: nat)
    requires Resumable(there, src) && ResumesAt(there, |src|, true) + moved <= |src|
    ensures Partial(there, src, true, moved) <= src
    ensures |Partial(there, src, true, moved)| == (if there.Some? then |there.value| else 0) + moved
  {
    var start := ResumesAt(there, |src|, true);
    assert src[..start] + src[start..start + moved] == src[..start + moved];
  }

  /** Any number of cancelled resumed runs, then one that is let finish: the
      destination is the source, and the bytes moved over all runs are just
      those that were missing. */
  method RelayUntilDone(src: Bytes, dst: Target, runs: seq<Pace>, last: Pace) returns (moved: nat)
    requires Resumable(dst.content, src) && last.cancelAfter.None?
    modifies dst
    ensures dst.content == Some(src)
    ensures moved == |src| - if old(dst.content).Some? then |old(dst.content).value| else 0
  {
    moved := 0;
    var have := if dst.content.Some? then |dst.content.value| else 0;
    for i := 0 to |runs|
      invariant Resumable(dst.content, src)
      invariant (if dst.content.Some? then |dst.content.value| else 0) == have + moved
    {
      ghost var there := dst.content;
      var r, n := RelayFile(src, dst, true, runs[i]);
      ResumedStaysResumable(there, src, n);
      moved := moved + n;
    }
    ghost var there := dst.content;
    var r, n := RelayFile(src, dst, true, last);
    ResumedStaysResumable(there, src, n);
    FinishedIsSourceExactly(there, src, true);
    moved := moved + n;
  }

  // ----- local copies -----

  const CHUNK: nat := 262144

  /** Where an appending copy begins; a destination longer than a known total is started over. */
  function AppendsAt(there: Option<Bytes>, total: Option<nat>, resume: bool): nat {
    if !resume || there.None? then 0
    else if total.Some? && |there.value| > total.value then 0
    else |there.value|
  }

  function Appended(there: Option<Bytes>, total: Option<nat>, resume: bool, src: Bytes, moved: nat): Bytes
    requires moved == 0 || AppendsAt(there, total, resume) + moved <= |src|
  {
    var start := AppendsAt(there, total, resume);
    (if start > 0 then there.value else []) + if moved == 0 then [] else src[start..start + moved]
  }

  lemma AppendedStarts(there: Option<Bytes>, total: Option<nat>, resume: bool, src: Bytes)
    ensures Appended(there, total, resume, src, 0) == if AppendsAt(there, total, resume) > 0 then there.value else []
  {
  }

  lemma AppendedGrows(there: Option<Bytes>, total: Option<nat>, resume: bool, src: Bytes, moved: nat, n: nat)
    requires n > 0 && AppendsAt(there, total, resume) + moved + n <= |src|
    ensures
      var start := AppendsAt(there, total, resume);
      Appended(there, total, resume, src, moved + n) ==
        Appended(there, total, resume, src, moved) + src[start + moved..start + moved + n]
  {
    var start := AppendsAt(there, total, resume);
    assert src[start..start + moved] + src[start + moved..start + moved + n] == src[start..start + moved + n];
  }

  /** Copy a stream to a file, appending to what a resumed destination holds. */
  method StreamCopy(src: Bytes, total: Option<nat>, dst: Target, resume: bool, pace: Pace)
      returns (r: Result<nat, ()>, moved: nat)
    modifies dst
    ensures moved == 0 || AppendsAt(old(dst.content), total, resume) + moved <= |src|
    ensures dst.content == Some(Appended(old(dst.content), total, resume, src, moved))
    ensures r.Ok? ==> r.value == moved && AppendsAt(old(dst.content), total, resume) + moved >= |src|
    ensures r.Err? ==> pace.cancelAfter.Some?
  {
    var start := AppendsAt(dst.content, total, resume);
    ghost var there := dst.content;
    if start == 0 {
      dst.Create();
    }
    moved := 0;
    AppendedStarts(there, total, resume, src);
    var turn := 0;
    while true
      invariant moved == 0 || start + moved <= |src|
      invariant dst.content == Some(Appended(there, total, resume, src, moved))
      decreases |src| - moved
    {
      if pace.cancelAfter == Some(turn) { return Err(()), moved; }
      if start + moved >= |src| { break; }
      var n := ReadSize(pace, turn, Min(|src| - start - moved, CHUNK));
      var buf := src[start + moved..start + moved + n];
      AppendedGrows(there, total, resume, src, moved, n);
      WrittenAtEnd(dst.content.value, buf);
      dst.WriteAt(|dst.content.value|, buf);
      moved := moved + n;
      turn := turn + 1;
    }
    r := Ok(moved);
  }

  /** A finished copy, whatever total it was told, is the source exactly when
      what it appended to, if anything, was a beginning of the source. */
  lemma AppendedIsSourceExactly(there: Option<Bytes>, total: Option<nat>, resume: bool, src: Bytes, moved: nat)
    requires moved == 0 || AppendsAt(there, total, resume) + moved <= |src|
    requires AppendsAt(there, total, resume) + moved >= |src|
    ensures Appended(there, total, resume, src, moved) == src <==>
              (AppendsAt(there, total, resume) > 0 ==> there.value <= src)
  {
    var start := AppendsAt(there, total, resume);
    if start > 0 {
      var done := Appended(there, total, resume, src, moved);
      assert done[..start] == there.value;
      if there.value <= src { assert src == src[..start] + src[start..]; }
    }
  }

  /** A copy cut short leaves a longer beginning of the source. */
  lemma AppendedStaysResumable(there: Option<Bytes>, src: Bytes, moved: nat)
    requires Resumable(there, src) && AppendsAt(there, Some(|src|), true) + moved <= |src|
    ensures Appended(there, Some(|src|), true, src, moved) <= src
    ensures |Appended(there, Some(|src|), true, src, moved)| == (if there.Some? then |there.value| else 0) + moved
  {
    var start := AppendsAt(there, Some(|src|), true);
    assert src[..start] + src[start..start + moved] == src[..start + moved];
  }

  /** Any number of cancelled resumed copies, then one that is let finish: the
      destination is the source, and the bytes moved over all copies are just
      those that were missing. */
  method StreamUntilDone(src: Bytes, dst: Target, runs: seq<Pace>, last: Pace) returns (moved: nat)
    requires Resumable(dst.content, src) && last.cancelAfter.None?
    modifies dst
    ensures dst.content == Some(src)
    ensures moved == |src| - if old(dst.content).Some? then |old(dst.content).value| else 0
  {
    moved := 0;
    var have := if dst.content.Some? then |dst.content.value| else 0;
    for i := 0 to |runs|
      invariant Resumable(dst.content, src)
      invariant (if dst.content.Some? then |dst.content.value| else 0) == have + moved
    {
      ghost var there := dst.content;
      var r, n := StreamCopy(src, Some(|src|), dst, true, runs[i]);
      AppendedStaysResumable(there, src, n);
      moved := moved + n;
    }
    ghost var there := dst.content;
    var r, n := StreamCopy(src, Some(|src|), dst, true, last);
    AppendedStaysResumable(there, src, n);
    moved := moved + n;
    assert dst.content.value == src[..|dst.content.value|] == src;
  }

  /** Read `len` bytes at `offset`, as many reads as that takes; less only at the end of the file. */
  method ReadAt(file: Bytes, offset: nat, len: nat, pace: Pace) returns (out: Bytes)
    ensures out == if offset <= |file| then file[offset..Min(offset + len, |file|)] else []
  {
    out := [];
    var turn := 0;
    while |out| < len
      invariant |out| <= len && (offset <= |file| ==> offset + |out| <= |file|)
      invariant out == if offset <= |file| then file[offset..offset + |out|] else []
      decreases len - |out|
    {
      if offset + |out| >= |file| { break; }
      var n := ReadSize(pace, turn, Min(len - |out|, |file| - offset - |out|));
      assert file[offset..offset + |out|] + file[offset + |out|..offset + |out| + n] ==
        file[offset..offset + |out| + n];
      out := out + file[offset + |out|..offset + |out| + n];
      turn := turn + 1;
    }
  }
}
