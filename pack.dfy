/**
 * The datapack writers: `addTag` (src/index.js:140-154), which creates, replaces or
 * merges a tag file, and `addCmds` on raw code with its shorthand `addRawCmds`
 * (src/index.js:276-296), which writes a function file. The pack on disk is the class
 * `Disk`; files and tags are kept apart, since a function path always has `functions`
 * right under its namespace and a tag path always has `tags` there.
 */
module Pack {

  import opened Outcomes
  import opened Strings
  import opened Ids

  /** The content of a tag file: `{replace: true, values}` or `{values}`. */
  datatype Tag = Tag(replace: bool, values: seq<string>)

  predicate NoDuplicates<T(==)>(xs: seq<T>)
  {
    forall i, j :: 0 <= i < j < |xs| ==> xs[i] != xs[j]
  }

  /** `[...new Set(xs)]`: the first occurrence of every value, in order. */
  function Dedup(xs: seq<string>): (r: seq<string>)
    ensures NoDuplicates(r)
    ensures forall x :: x in r <==> x in xs
    ensures |r| <= |xs|
  {
    if |xs| == 0 then []
    else
      var d := Dedup(xs[..|xs| - 1]);
      assert forall x :: x in xs <==> x in xs[..|xs| - 1] || x == xs[|xs| - 1] by {
        assert xs == xs[..|xs| - 1] + [xs[|xs| - 1]];
      }
      if xs[|xs| - 1] in d then d else d + [xs[|xs| - 1]]
  }

  /** A list without duplicates is left as it is. */
  lemma {:induction false} DedupUnique(xs: seq<string>)
    requires NoDuplicates(xs)
    ensures Dedup(xs) == xs
  {
    if |xs| > 0 {
      var init := xs[..|xs| - 1];
      DedupUnique(init);
      assert xs[|xs| - 1] !in init;
      assert init + [xs[|xs| - 1]] == xs;
    }
  }

  /** Values already present add nothing. */
  lemma {:induction false} DedupAbsorbs(xs: seq<string>, ys: seq<string>)
    requires forall y :: y in ys ==> y in xs
    ensures Dedup(xs + ys) == Dedup(xs)
    decreases |ys|
  {
    if |ys| == 0 {
      assert xs + ys == xs;
    } else {
      var init := ys[..|ys| - 1];
      assert (xs + ys)[..|xs + ys| - 1] == xs + init;
      assert forall y :: y in init ==> y in ys;
      DedupAbsorbs(xs, init);
      assert ys[|ys| - 1] in ys;
    }
  }

  /** Merging keeps the values that came first, in their order, ahead of the new ones. */
  lemma {:induction false} DedupKeepsPrefix(xs: seq<string>, ys: seq<string>)
    ensures |Dedup(xs)| <= |Dedup(xs + ys)| && Dedup(xs + ys)[..|Dedup(xs)|] == Dedup(xs)
    decreases |ys|
  {
    if |ys| == 0 {
      assert xs + ys == xs;
    } else {
      var init := ys[..|ys| - 1];
      assert (xs + ys)[..|xs + ys| - 1] == xs + init;
      DedupKeepsPrefix(xs, init);
    }
  }

  /** The tag `addTag` writes, given the tag already at its path (if any). */
  function MergeTag(existing: Option<Tag>, values: seq<string>, replace: bool): Tag
  {
    if replace then Tag(true, values)
    else if existing.Some? then Tag(false, Dedup(existing.value.values + values))
    else Tag(false, values)
  }

  /** With `replace` set, whatever tag was there is ignored. */
  lemma MergeTagReplaceIgnoresOld(a: Option<Tag>, b: Option<Tag>, values: seq<string>)
    ensures MergeTag(a, values, true) == MergeTag(b, values, true) == Tag(true, values)
  {
  }

  /** A tag created fresh holds the values exactly as given, duplicates included. */
  lemma MergeTagFresh(values: seq<string>)
    ensures MergeTag(None, values, false) == Tag(false, values)
  {
  }

  /** Merging into an existing tag yields each old or new value exactly once, the old values
      first, and drops the old tag's `replace` field. */
  lemma MergeTagUnion(old_: Tag, values: seq<string>)
    ensures var t := MergeTag(Some(old_), values, false);
            !t.replace && NoDuplicates(t.values)
            && (forall x :: x in t.values <==> x in old_.values || x in values)
            && (NoDuplicates(old_.values) ==> |old_.values| <= |t.values| && t.values[..|old_.values|] == old_.values)
  {
    DedupKeepsPrefix(old_.values, values);
    if NoDuplicates(old_.values) {
      DedupUnique(old_.values);
    }
  }

  /** Adding the same values to an existing tag twice is the same as adding them once. */
  lemma MergeTagIdempotent(old_: Tag, values: seq<string>)
    ensures var once := MergeTag(Some(old_), values, false);
            MergeTag(Some(once), values, false) == once
  {
    var d := Dedup(old_.values + values);
    assert forall y :: y in values ==> y in d by {
      assert forall y :: y in values ==> y in old_.values + values;
    }
    DedupAbsorbs(d, values);
    DedupUnique(d);
  }

  /** The new content of a function file: with `append` set the file is overwritten with the
      code and a line feed; without it the code goes after a line feed at the end of the file. */
  function WriteCode(current: string, code: string, append: bool): string
  {
    if append then code + "\n" else current + "\n" + code + "\n"
  }

  /** With `append` set, what was in the file is lost: the file holds the code's lines and an
      empty last line. */
  lemma WriteCodeOverwrites(current: string, code: string)
    ensures Split(WriteCode(current, code, true), '\n') == Split(code, '\n') + [""]
  {
    SplitConcat(code, "", '\n');
    assert code + ['\n'] + "" == code + "\n";
  }

  /** Without `append`, the file keeps its lines and gains the code's lines and an empty last line. */
  lemma WriteCodeAppends(current: string, code: string)
    ensures Split(WriteCode(current, code, false), '\n') == Split(current, '\n') + Split(code, '\n') + [""]
  {
    SplitConcat(current, code + "\n", '\n');
    SplitConcat(code, "", '\n');
    assert code + ['\n'] + "" == code + "\n";
    assert current + "\n" + code + "\n" == current + ['\n'] + (code + "\n");
  }

  /** The path of a function file. */
  function FunctionPath(id: string): Result<string>
  {
    ResolveId("functions", id, ".mcfunction", "data")
  }

  /** The path of a tag file of the given kind (`items`, `blocks`, `functions`, ...). */
  function TagPath(kind: string, id: string): Result<string>
  {
    ResolveId("tags/" + kind, id, ".json", "data")
  }

  /** The value stored under `key`, if any. */
  function Lookup<V>(m: map<string, V>, key: string): Option<V>
  {
    if key in m then Some(m[key]) else None
  }

  /** The text of the file at `path`, or `""` when there is none yet (`fs.ensureFile`). */
  function Current(files: map<string, string>, path: string): string
  {
    if path in files then files[path] else ""
  }

  /** `addRawCmds(id, code, append)` on the function files: the path it wrote, or the error
      an invalid id raises, and the files afterwards. */
  function WriteFunction(files: map<string, string>, id: string, code: string, append: bool)
    : (Result<string>, map<string, string>)
  {
    match FunctionPath(id)
    case Err(e) => (Err(e), files)
    case Ok(path) => (Ok(path), files[path := WriteCode(Current(files, path), code, append)])
  }

  /** `addTag(kind, id, values, replace)` on the tag files. */
  function WriteTag(tags: map<string, Tag>, kind: string, id: string, values: seq<string>, replace: bool)
    : (Result<string>, map<string, Tag>)
  {
    match TagPath(kind, id)
    case Err(e) => (Err(e), tags)
    case Ok(path) => (Ok(path), tags[path := MergeTag(Lookup(tags, path), values, replace)])
  }

  /** A valid id's file is written and no other file changes; an invalid id changes nothing. */
  lemma WriteFunctionFrame(files: map<string, string>, id: string, code: string, append: bool)
    ensures var (r, files') := WriteFunction(files, id, code, append);
            (r.Err? <==> !ValidId(id))
            && (r.Ok? ==> files'.Keys == files.Keys + {r.value}
                          && Split(files'[r.value], '\n')
                             == (if append then [] else Split(Current(files, r.value), '\n')) + Split(code, '\n') + [""]
                          && forall p :: p in files && p != r.value ==> files'[p] == files[p])
            && (r.Err? ==> files' == files)
  {
    var path := FunctionPath(id);
    if path.Ok? {
      if append {
        WriteCodeOverwrites(Current(files, path.value), code);
      } else {
        WriteCodeAppends(Current(files, path.value), code);
      }
    }
  }

  /** The files of the pack being written: function files as text, tag files as tags. */
  class Disk {
    var files: map<string, string>
    var tags: map<string, Tag>

    constructor()
      ensures files == map[] && tags == map[]
    {
      files := map[];
      tags := map[];
    }

    /** `addTag(kind, id, values, replace)`. */
    method AddTag(kind: string, id: string, values: seq<string>, replace: bool) returns (r: Result<string>)
      modifies this
      ensures (r, tags) == WriteTag(old(tags), kind, id, values, replace)
      ensures files == old(files)
    {
      r := TagPath(kind, id);
      if r.Ok? {
        tags := tags[r.value := MergeTag(Lookup(tags, r.value), values, replace)];
      }
    }

    /** `addRawCmds(id, code, append)`. */
    method AddRawCmds(id: string, code: string, append: bool) returns (r: Result<string>)
      modifies this
      ensures (r, files) == WriteFunction(old(files), id, code, append)
      ensures tags == old(tags)
    {
      r := FunctionPath(id);
      if r.Ok? {
        files := files[r.value := WriteCode(Current(files, r.value), code, append)];
      }
    }
  }
}
