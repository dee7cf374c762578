/** The rotating log file. Slot 0 is the active file, slot k the backup with suffix k; a slot may be missing. */
module LogRotation {
  import opened Base

  type Bytes = string

  type Slots = seq<Option<Bytes>>

  function Content(slot: Option<Bytes>): Bytes {
    if slot.Some? then slot.value else ""
  }

  /** The log as the files hold it: the backups from the oldest to the newest, then the active file. */
  function History(slots: Slots): Bytes {
    if slots == [] then "" else Content(slots[|slots| - 1]) + History(slots[..|slots| - 1])
  }

  predicate IsSuffix(a: Bytes, b: Bytes) {
    |a| <= |b| && b[|b| - |a|..] == a
  }

  lemma {:induction false} HistoryJoin(newer: Slots, older: Slots)
    ensures History(newer + older) == History(older) + History(newer)
  {
    if older == [] {
      assert newer + older == newer;
    } else {
      var init, last := older[..|older| - 1], older[|older| - 1];
      assert (newer + older)[..|newer + older| - 1] == newer + init;
      HistoryJoin(newer, init);
      assert Content(last) + (History(init) + History(newer)) == (Content(last) + History(init)) + History(newer);
    }
  }

  /** Renaming a file to the next number, which is free, leaves the history alone. */
  lemma RenameKeepsHistory(slots: Slots, k: nat)
    requires k + 1 < |slots| && slots[k + 1].None?
    ensures History(slots[k + 1 := slots[k]][k := None]) == History(slots)
  {
    var newer, older := slots[..k], slots[k + 2..];
    var moved := slots[k + 1 := slots[k]][k := None];
    assert slots == newer + [slots[k], None] + older && moved == newer + [None, slots[k]] + older;
    HistoryJoin(newer + [slots[k], None], older);
    HistoryJoin(newer + [None, slots[k]], older);
    HistoryJoin(newer, [slots[k], None]);
    HistoryJoin(newer, [None, slots[k]]);
    assert History([slots[k], None]) == Content(slots[k]) && History([None, slots[k]]) == Content(slots[k]) by {
      assert [slots[k], None][..1] == [slots[k]] && [None, slots[k]][..1] == [None];
      assert History([slots[k]]) == Content(slots[k]) + History([]) && History([None]) == "";
    }
  }

  lemma NewFileKeepsHistory(slots: Slots)
    requires slots != [] && slots[0].None?
    ensures History(slots[0 := Some("")]) == History(slots)
  {
    AppendExtends(slots, "");
    assert Content(slots[0]) + "" == "" && History(slots) + "" == History(slots);
  }

  /** Removing the oldest file drops the front of the history. */
  lemma RemoveOldest(slots: Slots, stream: Bytes)
    requires slots != [] && IsSuffix(History(slots), stream)
    ensures IsSuffix(History(slots[|slots| - 1 := None]), stream)
  {
    var removed := slots[|slots| - 1 := None];
    assert removed[..|slots| - 1] == slots[..|slots| - 1];
    assert History(slots) == Content(slots[|slots| - 1]) + History(removed);
    SuffixOfSuffix(Content(slots[|slots| - 1]), History(removed), stream);
  }

  lemma HistoryFirst(slot: Option<Bytes>, older: Slots)
    ensures History([slot] + older) == History(older) + Content(slot)
  {
    HistoryJoin([slot], older);
    assert [slot][..0] == [];
    assert History([slot]) == Content(slot) + "";
  }

  lemma AppendExtends(slots: Slots, data: Bytes)
    requires slots != []
    ensures History(slots[0 := Some(Content(slots[0]) + data)]) == History(slots) + data
  {
    var older, appended := slots[1..], Some(Content(slots[0]) + data);
    assert slots == [slots[0]] + older && slots[0 := appended] == [appended] + older;
    HistoryFirst(slots[0], older);
    HistoryFirst(appended, older);
    assert History(older) + (Content(slots[0]) + data) == (History(older) + Content(slots[0])) + data;
  }

  lemma SuffixOfSuffix(front: Bytes, a: Bytes, b: Bytes)
    requires IsSuffix(front + a, b)
    ensures IsSuffix(a, b)
  {
    assert (front + a)[|front|..] == a;
    assert b[|b| - |a|..] == b[|b| - |front + a|..][|front|..];
  }

  lemma SuffixExtends(a: Bytes, b: Bytes, data: Bytes)
    requires IsSuffix(a, b)
    ensures IsSuffix(a + data, b + data)
  {
    assert (b + data)[|b + data| - |a + data|..] == b[|b| - |a|..] + data;
  }

  /** The files at the moment, one rename or removal after another, are all suffixes of what was written. */
  ghost predicate AllSuffixes(trace: seq<Slots>, stream: Bytes) {
    forall t :: t in trace ==> IsSuffix(History(t), stream)
  }

  /** The renames from the second oldest backup down to the active file: each file moves to the next number, which has just been
      freed. */
  method RenameFiles(before: Slots, ghost stream: Bytes) returns (after: Slots, ghost trace: seq<Slots>)
    requires |before| >= 2 && before[|before| - 1].None? && IsSuffix(History(before), stream)
    ensures after == [None] + before[..|before| - 1]
    ensures IsSuffix(History(after), stream) && AllSuffixes(trace, stream)
  {
    after, trace := before, [before];
    var index := |before| - 1;
    while index >= 1
      invariant 0 <= index < |before| == |after| && after[index].None?
      invariant after[..index] == before[..index]
      invariant after[index + 1..] == before[index..|before| - 1]
      invariant IsSuffix(History(after), stream) && AllSuffixes(trace, stream)
    {
      ghost var last := after;
      RenameKeepsHistory(after, index - 1);
      after := after[index := after[index - 1]][index - 1 := None];
      trace := trace + [after];
      MovedUp(before, last, after, index);
      index := index - 1;
    }
    assert after == [None] + after[1..];
  }

  lemma MovedUp(before: Slots, last: Slots, after: Slots, index: nat)
    requires 1 <= index < |before| == |last| && last[..index] == before[..index] && last[index + 1..] == before[index..|before| - 1]
    requires after == last[index := last[index - 1]][index - 1 := None]
    ensures after[..index - 1] == before[..index - 1] && after[index..] == before[index - 1..|before| - 1]
  {
    assert last[index - 1] == before[index - 1];
    assert after[..index - 1] == last[..index][..index - 1];
    assert after[index..] == [last[index - 1]] + last[index + 1..];
  }

  class RotatingFile {
    const maxBytes: nat
    const backups: nat
    var slots: Slots
    var open: bool
    var size: nat
    /** Everything that was in the log, and the longest write since it was opened. */
    ghost var stream: Bytes
    ghost var longest: nat
    /** Which slots hold a file that a rotation started. */
    ghost var started: seq<bool>

    ghost predicate Valid()
      reads this
    {
      && maxBytes > 0 && backups > 0 && |slots| == |started| == backups + 1
      && (open ==> slots[0].Some? && size == |slots[0].value|)
      && IsSuffix(History(slots), stream)
      && (forall k :: 0 <= k <= backups && started[k] ==> |Content(slots[k])| <= Max(maxBytes, longest))
    }

    constructor (maxBytes: nat, backups: nat, found: Slots)
      requires maxBytes > 0 && backups > 0 && |found| == backups + 1
      ensures Valid() && open && this.maxBytes == maxBytes && this.backups == backups
      ensures stream == History(found) && slots == found[0 := Some(Content(found[0]))]
    {
      this.maxBytes, this.backups := maxBytes, backups;
      slots := found[0 := Some(Content(found[0]))];
      open, size := true, |Content(found[0])|;
      stream, longest, started := History(found), 0, seq(backups + 1, i => false);
      new;
      assert Content(found[0]) + "" == Content(found[0]);
      AppendExtends(found, "");
      assert History(found) + "" == History(found);
    }

    /** `rotate`: every backup moves up by one and the oldest goes; the active file becomes the first backup and a new one is
        opened. The trace lists the files after each removal and rename. */
    method Rotate() returns (ghost trace: seq<Slots>)
      requires Valid() && open
      modifies this`slots, this`open, this`size, this`started
      ensures Valid() && open && size == 0
      ensures slots == [Some("")] + old(slots)[..backups] && started == [true] + old(started)[..backups]
      ensures AllSuffixes(trace, stream)
    {
      open := false;
      RemoveOldest(slots, stream);
      slots := slots[backups := None];
      slots, trace := RenameFiles(slots, stream);
      assert slots == [None] + old(slots)[..backups];
      NewFileKeepsHistory(slots);
      slots := slots[0 := Some("")];
      open, size := true, 0;
      started := [true] + started[..backups];
    }

    /** What the file system takes goes to the end of the active file. */
    method Append(added: Bytes)
      requires Valid() && open
      requires size + |added| <= maxBytes || size == 0
      modifies this`slots, this`size, this`stream, this`longest
      ensures Valid() && stream == old(stream) + added && longest == Max(old(longest), |added|)
      ensures slots == old(slots)[0 := Some(Content(old(slots)[0]) + added)]
    {
      AppendExtends(slots, added);
      SuffixExtends(History(slots), stream, added);
      slots := slots[0 := Some(Content(slots[0]) + added)];
      size := size + |added|;
      stream, longest := stream + added, Max(longest, |added|);
    }

    /** `Write`. The file system may take only the first `accepted` bytes. A write that would take a non-empty file over the limit
        rotates first. */
    method Write(data: Bytes, accepted: nat) returns (written: nat, ghost trace: seq<Slots>)
      requires Valid() && accepted <= |data|
      modifies this`slots, this`open, this`size, this`started, this`stream, this`longest
      ensures Valid() && open == old(open)
      ensures !open ==> written == 0 && slots == old(slots) && stream == old(stream)
      ensures open ==> written == accepted && stream == old(stream) + data[..accepted]
      ensures open ==>
                slots == if old(size) > 0 && old(size) + |data| > maxBytes then [Some(data[..accepted])] + old(slots)[..backups]
                         else old(slots)[0 := Some(Content(old(slots)[0]) + data[..accepted])]
      ensures longest == if open then Max(old(longest), accepted) else old(longest)
      ensures AllSuffixes(trace, old(stream))
    {
      trace := [];
      written := 0;
      if open {
        if size > 0 && size + |data| > maxBytes {
          trace := Rotate();
        }
        Append(data[..accepted]);
        written := accepted;
        assert "" + data[..accepted] == data[..accepted];
      }
    }

    method Close()
      requires Valid()
      modifies this`open
      ensures Valid() && !open
    {
      open := false;
    }
  }
}
