/** The configuration store: reading and writing section files, the load that fills the
    live configuration, and the interlock between the IGate and BrandMeister files. */
module ConfigStore {
  import opened Common
  import opened JsonText
  import opened JsonWriter
  import opened ConfigFields
  import opened ConfigReaders

  type Config = map<Field, Value>

  /** What a section file holds: a document, or nothing that parses. */
  datatype File = Doc(members: seq<Member>) | Unusable

  type Files = map<Section, File>

  const SECTIONS: seq<Section> := [RadioFile, IGateFile, BrandMeisterFile, DigipeaterFile, TrackerFile]

  /** Every field has a value. */
  ghost predicate Total(c: Config) {
    forall f: Field :: f in c
  }

  /** Every field has a value in range. */
  ghost predicate Normal(c: Config) {
    forall f: Field :: f in c && Ok(f, c[f])
  }

  ghost predicate Present(files: Files) {
    forall s: Section :: s in files
  }

  predicate IsOn(c: Config, f: Field) {
    f in c && c[f] == One(Bool(true))
  }

  /** The worldwide monitor is off while INET->RF gating runs without its range gate. */
  predicate Interlock(c: Config) {
    !(IsOn(c, MONITOR) && IsOn(c, INET_TO_RF) && !IsOn(c, RANGE_GATE))
  }

  function NumberOf(v: Value): real {
    if v.One? && Numeric(v.v) then RealOf(v.v) else 0.0
  }

  predicate SpeedsOrdered(c: Config)
    requires LOW_SPEED in c && HIGH_SPEED in c
  {
    NumberOf(c[LOW_SPEED]) <= NumberOf(c[HIGH_SPEED])
  }

  // ---- Reading ----

  ghost function ReadFields(fs: seq<Field>, doc: seq<Member>, c: Config, junk: int -> int): (r: Config)
    requires Total(c)
    ensures Total(r)
  {
    if fs == [] then c
    else
      var f, done := fs[|fs| - 1], ReadFields(fs[..|fs| - 1], doc, c, junk);
      done[f := ReadField(f, Find(doc, Name(f)), done[f], junk)]
  }

  /** What a reader does once its fields are in: a high-speed threshold below the low one
      is raised to it, and the interlock is applied. */
  ghost function Settle(s: Section, c: Config): (r: Config)
    requires Total(c)
    ensures Total(r)
  {
    if s == TrackerFile && !SpeedsOrdered(c) then c[HIGH_SPEED := c[LOW_SPEED]]
    else if s == BrandMeisterFile && !Interlock(c) then c[MONITOR := One(Bool(false))]
    else c
  }

  ghost function ReadSection(s: Section, file: File, c: Config, junk: int -> int): (r: Config)
    requires Total(c)
    ensures Total(r)
  {
    match file
    case Unusable => c
    case Doc(doc) => Settle(s, ReadFields(Fields(s), doc, c, junk))
  }

  /** What the load has to go by: a file that could not be read for want of memory
      leaves its section alone, like an unusable one. */
  function Seen(files: Files, oom: Section -> bool, s: Section): File
    requires s in files
  {
    if oom(s) then Unusable else files[s]
  }

  ghost function LoadFrom(files: Files, oom: Section -> bool, n: nat, defaults: Config, junk: int -> int): (r: Config)
    requires Present(files) && Total(defaults) && n <= |SECTIONS|
    ensures Total(r)
  {
    if n == 0 then defaults
    else
      var s := SECTIONS[n - 1];
      ReadSection(s, Seen(files, oom, s), LoadFrom(files, oom, n - 1, defaults, junk), junk)
  }

  ghost function Loaded(files: Files, oom: Section -> bool, defaults: Config, junk: int -> int): (r: Config)
    requires Present(files) && Total(defaults)
    ensures Total(r)
  {
    LoadFrom(files, oom, |SECTIONS|, defaults, junk)
  }

  // ---- Writing ----

  ghost function DocOf(fs: seq<Field>, c: Config): (d: seq<Member>)
    requires Total(c)
    ensures |d| == |fs| && forall i :: 0 <= i < |fs| ==> d[i] == Member(Name(fs[i]), c[fs[i]])
  {
    seq(|fs|, i requires 0 <= i < |fs| => Member(Name(fs[i]), c[fs[i]]))
  }

  lemma DocGrows(fs: seq<Field>, i: nat, c: Config)
    requires Total(c) && i < |fs|
    ensures DocOf(fs[..i + 1], c) == DocOf(fs[..i], c) + [Member(Name(fs[i]), c[fs[i]])]
  {
  }

  ghost function SectionDoc(s: Section, c: Config): seq<Member>
    requires Total(c)
  {
    DocOf(Fields(s), c)
  }

  /** The files after saving the selected sections. */
  ghost function Saved(files: Files, mask: set<Section>, commits: Section -> bool, c: Config): (r: Files)
    requires Present(files) && Total(c)
    ensures Present(r)
  {
    map s: Section :: if s in mask && commits(s) then Doc(SectionDoc(s, c)) else files[s]
  }

  ghost function Rewrites(files: Files): set<Section>
    requires Present(files)
  {
    set s: Section | files[s].Unusable?
  }

  class Store {
    var config: Config
    var files: Files

    ghost predicate Valid()
      reads this
    {
      Total(config) && Present(files)
    }

    constructor (config: Config, files: Files)
      requires Total(config) && Present(files)
      ensures Valid() && this.config == config && this.files == files
    {
      this.config, this.files := config, files;
    }

    /** The text of one section's file. */
    method WriteSection(s: Section) returns (text: string)
      requires Valid()
      ensures text == DocText(SectionDoc(s, config)) && ParseDoc(text) == Some(SectionDoc(s, config))
    {
      text := WriteFields(Fields(s));
    }

    method WriteFields(fs: seq<Field>) returns (text: string)
      requires Valid()
      ensures text == DocText(DocOf(fs, config)) && ParseDoc(text) == Some(DocOf(fs, config))
    {
      var w := new Writer();
      for i := 0 to |fs|
        invariant fresh(w) && w.Valid() && w.open.None?
        invariant w.members == DocOf(fs[..i], config)
      {
        WriteField(w, fs[i]);
        DocGrows(fs, i, config);
      }
      assert fs[..|fs|] == fs;
      text := w.End();
    }

    method WriteField(w: Writer, f: Field)
      requires Valid() && w.Valid() && w.open.None?
      modifies w
      ensures w.Valid() && w.open.None? && w.members == old(w.members) + [Member(Name(f), config[f])]
    {
      var v, key := config[f], Name(f);
      match v
      case One(scalar) => w.Add(key, scalar);
      case Arr(items) => WriteArray(w, key, items);
    }

    method WriteArray(w: Writer, key: string, items: seq<Scalar>)
      requires w.Valid() && w.open.None?
      modifies w
      ensures w.Valid() && w.open.None? && w.members == old(w.members) + [Member(key, Arr(items))]
    {
      hide Written;
      w.ArrBegin(key);
      for i := 0 to |items|
        invariant w.Valid() && w.members == old(w.members) && w.open == Some(Member(key, Arr(items[..i])))
      {
        w.ArrAdd(items[i]);
        assert items[..i + 1] == items[..i] + [items[i]];
      }
      assert items[..|items|] == items;
      w.ArrEnd();
    }

    method SaveSection(s: Section, commits: Section -> bool) returns (ok: bool)
      requires Valid()
      modifies this`files
      ensures Valid() && ok == commits(s)
      ensures files == if ok then old(files)[s := Doc(SectionDoc(s, config))] else old(files)
    {
      var text := WriteSection(s);
      ok := commits(s);
      if ok {
        files := files[s := Doc(ParseDoc(text).value)];
      }
    }

    /** Without the save mutex nothing is written. Otherwise every selected section is
        attempted even after one has failed. */
    method Save(mask: set<Section>, mutex: bool, commits: Section -> bool) returns (ok: bool)
      requires Valid()
      modifies this`files
      ensures Valid() && files == if mutex then Saved(old(files), mask, commits, config) else old(files)
      ensures ok <==> mutex && forall s :: s in mask ==> commits(s)
    {
      hide SectionDoc;
      if !mutex {
        return false;
      }
      ok := true;
      ghost var was, goal := files, Saved(files, mask, commits, config);
      for i := 0 to |SECTIONS|
        invariant Valid()
        invariant forall s: Section :: files[s] == if Before(s, i) then goal[s] else was[s]
        invariant ok <==> forall s :: s in mask && Before(s, i) ==> commits(s)
      {
        var s := SECTIONS[i];
        SectionsInOrder(i);
        if s in mask {
          var saved := SaveSection(s, commits);
          if !saved {
            ok := false;
          }
        }
      }
      assert forall s: Section :: Before(s, |SECTIONS|);
      assert files == goal;
    }

    /** Reads one section into the live configuration; says what became of it. */
    method LoadSection(s: Section, oom: Section -> bool, junk: int -> int) returns (ok: bool, transient: bool)
      requires Valid()
      modifies this`config
      ensures Valid() && config == ReadSection(s, Seen(files, oom, s), old(config), junk)
      ensures transient == oom(s) && ok == (!oom(s) && files[s].Doc?)
    {
      hide Fields, ReadField;
      if oom(s) {
        return false, true;
      }
      if files[s].Unusable? {
        return false, false;
      }
      ghost var was := config;
      var doc, fs := files[s].members, Fields(s);
      for i := 0 to |fs|
        invariant Valid() && config == ReadFields(fs[..i], doc, was, junk)
      {
        var f := fs[i];
        assert fs[..i + 1][..i] == fs[..i];
        var v := ReadOne(f, Find(doc, Name(f)), config[f], junk);
        config := config[f := v];
      }
      assert fs[..|fs|] == fs;
      Resolve(s);
      return true, false;
    }

    method Resolve(s: Section)
      requires Valid()
      modifies this`config
      ensures Valid() && config == Settle(s, old(config))
    {
      if s == TrackerFile {
        if NumberOf(config[HIGH_SPEED]) < NumberOf(config[LOW_SPEED]) {
          config := config[HIGH_SPEED := config[LOW_SPEED]];
        }
      } else if s == BrandMeisterFile {
        if IsOn(config, MONITOR) && IsOn(config, INET_TO_RF) && !IsOn(config, RANGE_GATE) {
          config := config[MONITOR := One(Bool(false))];
        }
      }
    }

    /** Defaults first, then every section file in order; files that are missing or
        unusable are created from what resulted, unless memory ran out anywhere. */
    method Load(defaults: Config, oom: Section -> bool, mutex: bool, commits: Section -> bool, junk: int -> int)
        returns (ok: bool)
      requires Valid() && Total(defaults)
      modifies this
      ensures Valid() && config == Loaded(old(files), oom, defaults, junk)
      ensures (exists s: Section :: oom(s)) ==> !ok && files == old(files)
      ensures (forall s: Section :: !oom(s)) ==>
                && files == (if mutex then Saved(old(files), Rewrites(old(files)), commits, config) else old(files))
                && (ok <==> Rewrites(old(files)) == {}
                            || (mutex && forall s :: s in Rewrites(old(files)) ==> commits(s)))
    {
      hide ReadSection, SectionDoc;
      config := defaults;
      var rewrite: set<Section> := {};
      var transient := false;
      for i := 0 to |SECTIONS|
        invariant Valid() && files == old(files) && config == LoadFrom(files, oom, i, defaults, junk)
        invariant transient <==> exists s: Section :: Before(s, i) && oom(s)
        invariant forall s: Section :: s in rewrite <==> Before(s, i) && !oom(s) && files[s].Unusable?
      {
        SectionsInOrder(i);
        var read, failed := LoadSection(SECTIONS[i], oom, junk);
        if !read {
          if failed {
            transient := true;
          } else {
            rewrite := rewrite + {SECTIONS[i]};
          }
        }
      }
      assert forall s: Section :: Before(s, |SECTIONS|);
      if transient {
        return false;
      }
      assert rewrite == Rewrites(old(files));
      if rewrite == {} {
        assert files == Saved(files, {}, commits, config);
        return true;
      }
      ok := Save(rewrite, mutex, commits);
    }
  }

  /** The sections ahead of position i. */
  predicate Before(s: Section, i: nat) {
    match s
    case RadioFile => 0 < i
    case IGateFile => 1 < i
    case BrandMeisterFile => 2 < i
    case DigipeaterFile => 3 < i
    case TrackerFile => 4 < i
  }

  lemma SectionsInOrder(i: nat)
    requires i < |SECTIONS|
    ensures forall s: Section :: Before(s, i + 1) <==> Before(s, i) || s == SECTIONS[i]
    ensures !Before(SECTIONS[i], i)
  {
  }
}
