/** HARFileReceiver: everything is kept in lists and the whole file is rewritten on every flush. */
module HarFile {
  import opened Common
  import opened Archives
  import opened Bufio
  import Utf8

  /** The files of a file system by name. Every operation on one may be planned to fail. */
  class Disk {
    var files: map<string, bytes>
    var plan: seq<Outcome>

    constructor ()
      ensures files == map[] && plan == []
    {
      files, plan := map[], [];
    }

    /** The outcome of the next operation; operations beyond the plan succeed. */
    method Next(size: nat) returns (o: Outcome)
      modifies this`plan
      ensures old(plan) == [] ==> o == Outcome(size, false) && plan == []
      ensures old(plan) != [] ==> plan == old(plan)[1..]
    {
      if plan == [] {
        o := Outcome(size, false);
      } else {
        o, plan := plan[0], plan[1..];
      }
    }
  }

  /** data written over c from an offset; a gap past the end of c is filled with zeros. */
  function Overwrite(c: bytes, offset: nat, data: bytes): bytes {
    var padded := if |c| < offset then c + seq(offset - |c|, _ => 0) else c;
    padded[..offset] + data + if offset + |data| <= |padded| then padded[offset + |data|..] else []
  }

  /** An os.File. */
  class File {
    const disk: Disk
    const name: string
    var offset: nat
    var open: bool

    ghost predicate Valid()
      reads this, disk
    {
      name in disk.files
    }

    constructor (disk: Disk, name: string)
      requires name in disk.files
      ensures Valid() && this.disk == disk && this.name == name && offset == 0 && open
    {
      this.disk, this.name, offset, open := disk, name, 0, true;
    }

    /** Only this file's content and the plan change. */
    twostate predicate Touched()
      reads this, disk
    {
      name in disk.files && disk.files == old(disk.files)[name := disk.files[name]]
    }

    method Rewind() returns (ok: bool)
      requires Valid()
      modifies this`offset, disk`plan
      ensures ok ==> open && offset == 0
      ensures !open ==> disk.plan == old(disk.plan)
      ensures old(disk.plan) == [] ==> ok == open && disk.plan == []
    {
      if !open {
        return false;
      }
      var o := disk.Next(0);
      ok := !o.fail;
      if ok {
        offset := 0;
      }
    }

    method Truncate() returns (ok: bool)
      requires Valid()
      modifies disk
      ensures Valid() && Touched()
      ensures ok ==> open && disk.files[name] == []
      ensures !ok ==> disk.files == old(disk.files)
      ensures old(disk.plan) == [] ==> ok == open && disk.plan == []
    {
      if !open {
        return false;
      }
      var o := disk.Next(0);
      ok := !o.fail;
      if ok {
        disk.files := disk.files[name := []];
      }
    }

    method Write(data: bytes) returns (ok: bool)
      requires Valid()
      modifies this`offset, disk
      ensures Valid() && Touched()
      ensures ok ==> open && disk.files[name] == Overwrite(old(disk.files[name]), old(offset), data)
      ensures old(disk.plan) == [] ==> ok == open && disk.plan == []
    {
      if !open {
        return false;
      }
      var o := disk.Next(|data|);
      var part := Take(data, o.accept);
      disk.files := disk.files[name := Overwrite(disk.files[name], offset, part)];
      offset := offset + |part|;
      ok := !o.fail && part == data;
    }

    method Close() returns (ok: bool)
      modifies this`open, disk`plan
      ensures ok ==> old(open)
      ensures !open
      ensures !old(open) ==> disk.plan == old(disk.plan)
      ensures old(disk.plan) == [] ==> ok == old(open) && disk.plan == []
    {
      if !open {
        return false;
      }
      var o := disk.Next(0);
      open := false;
      ok := !o.fail;
    }
  }

  /** What can be told about a started receiver. A reliable one has no I/O failure to come. */
  datatype Session = Session(content: bytes, open: bool, reliable: bool,
                             version: Version, entries: seq<Item>, pages: seq<Item>)
  {
    predicate Marshals() {
      AllGood(entries) && AllGood(pages)
    }

    function Archive(): Archive
      requires Marshals()
    {
      Archives.Archive(version, Jsons(pages), Jsons(entries))
    }
  }

  /** Flush: success means that the file is the whole archive as it stands. */
  ghost predicate Rewritten(s: Session, ok: bool, t: Session) {
    && t == s.(content := t.content, reliable := t.reliable)
    && (ok ==> s.open && s.Marshals() && t.content == Document(s.version, s.entries, s.pages))
    && (!s.open ==> !ok && t == s)
    && (s.reliable && s.open ==> t.reliable && ok == s.Marshals() && (!ok ==> t.content == []))
  }

  ghost predicate Step(s: Session, c: Call, t: Session) {
    match c
    case Entry(item, ok) => ok && t == s.(entries := s.entries + [item])
    case Page(item) => t == s.(pages := s.pages + [item])
    case Flush(ok) => Rewritten(s, ok, t)
  }

  /** Close: the lists are dropped once the archive has been written, even if closing the file then fails. */
  ghost predicate Closed(s: Session, ok: bool, t: Session) {
    || (!ok && Rewritten(s, false, t))
    || (exists u :: Rewritten(s, true, u)
          && t == u.(open := false, reliable := t.reliable, entries := [], pages := [])
          && (u.reliable ==> ok && t.reliable))
  }

  // ----- A receiver on a disk that does not fail, as a value -----

  /** The file being collected. It is not open once it has been closed without a successor. */
  datatype Current = Current(name: string, open: bool, entries: seq<Item>, pages: seq<Item>)

  /** HARFileReceiver.Flush on a file system that does not fail. */
  function Save(version: Version, files: map<string, bytes>, w: Current): (r: (map<string, bytes>, bool)) {
    if !w.open then (files, false)
    else if AllGood(w.entries) && AllGood(w.pages) then
      (files[w.name := Document(version, w.entries, w.pages)], true)
    else (files[w.name := []], false)
  }

  /** HARFileReceiver.Close likewise. */
  function Finish(version: Version, files: map<string, bytes>, w: Current): (r: (map<string, bytes>, Current, bool)) {
    var (files', ok) := Save(version, files, w);
    if ok then (files', Current(w.name, false, [], []), true) else (files', w, false)
  }

  class HarFileReceiver {
    const disk: Disk
    const fileName: string
    var entries: seq<Item>
    var pages: seq<Item>
    var version: Version
    var fp: File?
    // json.Encoder keeps the error of a failed write.
    var encoderFailed: bool

    ghost predicate Valid()
      reads this, fp, disk
    {
      fp != null ==> fp.disk == disk && fp.name == fileName && fp.Valid()
    }

    ghost function State(): Session
      requires Valid() && fp != null
      reads this, fp, disk
    {
      Session(disk.files[fileName], fp.open, disk.plan == [] && !encoderFailed, version, entries, pages)
    }

    /** The same, also for a receiver that has no file; that is like one whose file is closed. */
    ghost function Told(): Session
      requires Valid()
      reads this, fp, disk
    {
      if fp != null then State() else Session([], false, false, version, entries, pages)
    }

    constructor (disk: Disk, fileName: string)
      ensures Valid() && this.disk == disk && this.fileName == fileName
      ensures fp == null && entries == [] && pages == []
    {
      this.disk, this.fileName := disk, fileName;
      entries, pages, fp, encoderFailed := [], [], null, false;
      version := Version("", "", "");
    }

    /** os.Create: the file exists afterwards and is empty, whatever it held before. */
    method Start(version: Version) returns (ok: bool)
      requires Valid()
      modifies this, disk
      ensures Valid()
      ensures ok ==> fp != null && fresh(fp) && disk.files == old(disk.files)[fileName := []]
      ensures ok ==> State() == Session([], true, disk.plan == [], version, entries, pages)
      ensures !ok ==> fp == old(fp) && disk.files == old(disk.files)
      ensures entries == old(entries) && pages == old(pages) && this.version == version
      ensures old(disk.plan) == [] ==> ok && disk.plan == []
    {
      this.version := version;
      var o := disk.Next(0);
      if o.fail {
        return false;
      }
      disk.files := disk.files[fileName := []];
      fp := new File(disk, fileName);
      encoderFailed := false;
      return true;
    }

    method Entry(item: Item) returns (ok: bool)
      modifies this`entries
      ensures Valid() == old(Valid()) && ok && entries == old(entries) + [item]
      ensures Valid() && fp != null ==> Step(old(State()), Call.Entry(item, ok), State())
    {
      entries := entries + [item];
      ok := true;
    }

    method Page(item: Item)
      modifies this`pages
      ensures Valid() == old(Valid()) && pages == old(pages) + [item]
      ensures Valid() && fp != null ==> Step(old(State()), Call.Page(item), State())
    {
      pages := pages + [item];
    }

    /** Without a file (Start failed or was not called) Seek reports an error before anything else happens. */
    method Flush() returns (ok: bool)
      requires Valid()
      modifies this`encoderFailed, fp, disk
      ensures Valid()
      ensures fp == null ==> !ok && disk.files == old(disk.files) && disk.plan == old(disk.plan)
      ensures fp != null ==> fp.Touched() && fp.open == old(fp.open) && Step(old(State()), Call.Flush(ok), State())
    {
      if fp == null {
        return false;
      }
      ok := fp.Rewind();
      if !ok {
        return;
      }
      ok := fp.Truncate();
      if !ok {
        return;
      }
      if encoderFailed || !AllGood(entries) || !AllGood(pages) {
        return false;
      }
      var archive := Archive(version, Jsons(pages), Jsons(entries));
      ok := fp.Write(Utf8.Encode(HarFileText(archive)));
      encoderFailed := !ok;
    }

    /** The second critical section of Close. */
    method Dispose() returns (ok: bool)
      requires Valid() && fp != null
      modifies this`entries, this`pages, fp`open, disk`plan
      ensures Valid() && entries == [] && pages == [] && !fp.open && (ok ==> old(fp.open))
      ensures old(disk.plan) == [] ==> ok == old(fp.open) && disk.plan == []
    {
      pages, entries := [], [];
      ok := fp.Close();
    }

    method Close() returns (ok: bool)
      requires Valid()
      modifies this`encoderFailed, this`entries, this`pages, fp, disk
      ensures Valid()
      ensures fp == null ==> !ok && disk.files == old(disk.files) && disk.plan == old(disk.plan)
      ensures fp == null ==> entries == old(entries) && pages == old(pages)
      ensures fp != null ==> fp.Touched() && Closed(old(State()), ok, State())
    {
      ok := Flush();
      if !ok {
        return;
      }
      ghost var u := State();
      ok := Dispose();
      assert Rewritten(old(State()), true, u);
    }
  }
}
