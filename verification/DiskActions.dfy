/** What an action asks for, read off its fields and off what is found on the disk. */
module DiskActions {
  import opened Wrappers
  import opened PartTables
  import opened DiskPlan

  // ----- Wiping -----

  /** The partition is to be wiped in this mode once it is there: the mode given, or the superblock of a new one;
      the extended partition never. */
  ghost predicate WipedWith(a: PartAct, mode: string) {
    && a.part.flag != Some("extended")
    && (a.wipe == Some(mode) || (a.wipe == None && !a.preserve && mode == "superblock"))
  }

  /** The partition is left as it is. */
  ghost predicate NotWiped(a: PartAct) {
    a.part.flag == Some("extended") || (a.preserve && a.wipe == None)
  }

  lemma WipesAre(a: PartAct)
    ensures forall mode :: WipeFor(a) == Some(mode) <==> WipedWith(a, mode)
    ensures WipeFor(a) == None <==> NotWiped(a)
  {
  }

  // ----- Looking things up -----

  ghost predicate NoneBefore(infos: seq<PartInfo>, i: nat, start: nat)
    requires i <= |infos|
  {
    forall j :: 0 <= j < i ==> infos[j].start != start
  }

  /** `info` is the first of the reported partitions that starts at `start`. */
  ghost predicate Reported(infos: seq<PartInfo>, start: nat, info: PartInfo) {
    exists i :: 0 <= i < |infos| && infos[i] == info && info.start == start && NoneBefore(infos, i, start)
  }

  lemma {:induction false} FindsReported(infos: seq<PartInfo>, start: nat)
    ensures FindInfo(infos, start) == None <==> forall info :: info in infos ==> info.start != start
    ensures forall info :: FindInfo(infos, start) == Some(info) <==> Reported(infos, start, info)
  {
    if infos != [] {
      var rest := infos[1..];
      FindsReported(rest, start);
      forall info ensures FindInfo(infos, start) == Some(info) <==> Reported(infos, start, info) {
        if i :| 0 <= i < |rest| && rest[i] == info && info.start == start && NoneBefore(rest, i, start) {
          assert infos[i + 1] == info;
          assert infos[0].start != start ==> NoneBefore(infos, i + 1, start);
        }
        if i :| 0 <= i < |infos| && infos[i] == info && info.start == start && NoneBefore(infos, i, start) {
          assert i > 0 ==> rest[i - 1] == info && NoneBefore(rest, i - 1, start);
        }
      }
    }
  }

  /** No two format actions are for the volume. */
  ghost predicate AtMostOne(formats: seq<Format>, id: string) {
    forall i, j :: 0 <= i < j < |formats| ==> formats[i].volume != id || formats[j].volume != id
  }

  lemma {:induction false} FormatsAre(formats: seq<Format>, id: string)
    ensures forall f :: f in FormatsOf(formats, id) <==> f in formats && f.volume == id
    ensures |FormatsOf(formats, id)| <= 1 <==> AtMostOne(formats, id)
  {
    if formats != [] {
      var rest := formats[1..];
      FormatsAre(rest, id);
      assert formats == [formats[0]] + rest;
      if formats[0].volume == id {
        if FormatsOf(rest, id) != [] {
          var f := FormatsOf(rest, id)[0];
          assert f in rest;
          var j :| 0 <= j < |rest| && rest[j] == f;
          assert formats[j + 1].volume == id;
        } else {
          forall j | 0 < j < |formats| ensures formats[j].volume != id {
            assert formats[j] == rest[j - 1] && rest[j - 1] in rest;
          }
        }
      }
      forall i, j | AtMostOne(formats, id) && 0 <= i < j < |rest| ensures rest[i].volume != id || rest[j].volume != id {
        assert rest[i] == formats[i + 1] && rest[j] == formats[j + 1];
      }
      forall i, j | AtMostOne(rest, id) && 0 < i < j < |formats|
        ensures formats[i].volume != id || formats[j].volume != id
      {
        assert formats[i] == rest[i - 1] && formats[j] == rest[j - 1];
      }
    }
  }

  // ----- Verifying and resizing -----

  /** The partition found is as the action describes it: its size, unless that is to change, and its offset. */
  ghost predicate AsDescribed(g: Geometry, a: PartAct, info: PartInfo) {
    && (!a.resize ==> a.part.size == info.size * if a.part.flag == Some("extended") then 512 else g.sectorBytes)
    && (a.part.offset.Some? ==> a.part.offset.value == info.start * g.sectorBytes)
  }

  lemma VerifiesDescribed(g: Geometry, a: PartAct, info: PartInfo)
    ensures Verify(g, a, info) == None <==> AsDescribed(g, a, info)
  {
  }

  /** No format action gives the volume a new file system. */
  ghost predicate NotReformatted(a: PartAct, formats: seq<Format>) {
    forall f :: f in formats && f.volume == a.id ==> f.preserve
  }

  /** A resize is asked for, there is a file system, and no format action is about to replace it. */
  ghost predicate ResizeDue(a: PartAct, info: PartInfo, formats: seq<Format>) {
    a.preserve && a.resize && info.fstype != "" && NotReformatted(a, formats)
  }

  /** If a resize is asked for, at most one format action is for the volume; if one is due, that action names the
      type found, and it is a type that can be resized. */
  ghost predicate ResizeCan(a: PartAct, info: PartInfo, formats: seq<Format>) {
    && (a.preserve && a.resize && info.fstype != "" ==> AtMostOne(formats, a.id))
    && (ResizeDue(a, info, formats) ==>
          && (forall f :: f in formats && f.volume == a.id ==> f.fstype == info.fstype)
          && info.fstype in {"ext2", "ext3", "ext4", "ntfs"})
  }

  lemma OneFormat(formats: seq<Format>, a: PartAct)
    requires AtMostOne(formats, a.id) && FormatsOf(formats, a.id) != []
    ensures |FormatsOf(formats, a.id)| == 1 && FormatsOf(formats, a.id)[0] in formats
    ensures forall f :: f in formats && f.volume == a.id <==> f == FormatsOf(formats, a.id)[0]
  {
    FormatsAre(formats, a.id);
    assert FormatsOf(formats, a.id) == [FormatsOf(formats, a.id)[0]];
  }

  /** A resize is planned exactly when it is due and changes the size: down to a smaller size, up to a larger one. */
  lemma ResizesAre(g: Geometry, formats: seq<Format>, a: PartAct, info: PartInfo)
    ensures var r, now := PrepareResize(g, formats, a, info), info.size * g.sectorBytes;
      && (r.Ok? <==> ResizeCan(a, info, formats))
      && (forall fstype, size :: r == Ok(Some(Resize(fstype, size, Down))) <==>
            ResizeCan(a, info, formats) && ResizeDue(a, info, formats) && a.part.size < now
            && fstype == info.fstype && size == a.part.size)
      && (forall fstype, size :: r == Ok(Some(Resize(fstype, size, Up))) <==>
            ResizeCan(a, info, formats) && ResizeDue(a, info, formats) && now < a.part.size
            && fstype == info.fstype && size == a.part.size)
  {
    FormatsAre(formats, a.id);
    if AtMostOne(formats, a.id) && FormatsOf(formats, a.id) != [] {
      OneFormat(formats, a);
    }
  }
}
