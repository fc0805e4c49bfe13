/**
 * The pure parts of `ls`: how the requested path is normalised before the
 * directory is opened, and which records the listing keeps.
 */
module Paths {
  import opened Transport

  /** Every backslash becomes a forward slash (`str_replace(array('/', '\\'), '/', ...)`). */
  function ForwardSlashes(p: string): (q: string)
    ensures |q| == |p|
    ensures forall i :: 0 <= i < |p| ==> q[i] == (if p[i] == '\\' then '/' else p[i])
  {
    if p == [] then [] else [if p[0] == '\\' then '/' else p[0]] + ForwardSlashes(p[1..])
  }

  /** `rtrim(p, '/')`: p without its run of trailing slashes. */
  function TrimTrailingSlashes(p: string): (q: string)
    ensures q <= p
    ensures q == [] || q[|q| - 1] != '/'
    ensures forall i :: |q| <= i < |p| ==> p[i] == '/'
  {
    if p != [] && p[|p| - 1] == '/' then TrimTrailingSlashes(p[..|p| - 1]) else p
  }

  /** The directory path `ls` opens for the requested `path`. */
  function NormalizePath(path: string): (r: string)
    ensures '\\' !in r
    ensures |r| >= 1 && r[|r| - 1] == '/'
    ensures |r| >= 2 ==> r[|r| - 2] != '/'
  {
    var p := ForwardSlashes(path);
    if p == "/" then "/./" else TrimTrailingSlashes(p) + "/"
  }

  /**
   * Away from the root special case, normalisation only drops trailing slashes
   * and adds one back: the result without its final slash is a prefix of the
   * slash-converted input, and what the input has beyond it is all slashes.
   */
  lemma NormalizeNonRoot(path: string)
    requires ForwardSlashes(path) != "/"
    ensures var q, r := ForwardSlashes(path), NormalizePath(path);
      r[..|r| - 1] <= q && forall i :: |r| - 1 <= i < |q| ==> q[i] == '/'
  {
  }

  /** "/" (or "\") is rewritten to "/./"; "" and a run of slashes become "/". */
  lemma NormalizeRootCases(n: nat)
    ensures NormalizePath("/") == "/./" && NormalizePath("\\") == "/./"
    ensures NormalizePath("") == "/"
    ensures n >= 2 ==> NormalizePath(seq(n, _ => '/')) == "/"
  {
  }

  /** Normalising a normalised path changes nothing, except for the bare "/". */
  lemma NormalizeIdempotent(path: string)
    requires NormalizePath(path) != "/"
    ensures NormalizePath(NormalizePath(path)) == NormalizePath(path)
  {
  }

  /** "" normalises to "/", which normalises again to "/./": not idempotent there. */
  lemma NormalizeNotIdempotentAtRoot()
    ensures NormalizePath("") == "/" && NormalizePath(NormalizePath("")) == "/./"
  {
  }

  /** One record of the listing: `array('type' => ..., 'name' => ...)`. */
  datatype FileInfo = FileInfo(kind: string, name: string)

  predicate IsDotEntry(name: string)
  {
    name == "." || name == ".."
  }

  /** The record for one entry; a missing or falsy file type reads as "file". */
  function Info(e: Entry): FileInfo
  {
    FileInfo(if e.kind.Some? && !Falsy(e.kind.value) then e.kind.value else "file", e.name)
  }

  /** The records `ls` gathers from a directory whose entries are `entries`, in read order. */
  function Listing(entries: seq<Entry>): (files: seq<FileInfo>)
    ensures |files| <= |entries|
  {
    if entries == [] then []
    else
      var last := entries[|entries| - 1];
      Listing(entries[..|entries| - 1]) + (if IsDotEntry(last.name) then [] else [Info(last)])
  }

  /** One read step of the loop: the next entry adds its record unless it is "." or "..". */
  lemma ListingStep(entries: seq<Entry>, pos: nat)
    requires pos < |entries|
    ensures Listing(entries[..pos + 1]) ==
      Listing(entries[..pos]) + if IsDotEntry(entries[pos].name) then [] else [Info(entries[pos])]
  {
    assert entries[..pos + 1][..pos] == entries[..pos];
  }

  /**
   * The readdir loop of `ls`: reads a freshly opened directory to its end and
   * keeps a record for every entry but "." and "..".
   */
  method ReadListing(d: Dir) returns (files: seq<FileInfo>)
    requires d.Valid() && d.pos == 0
    modifies d
    ensures files == Listing(d.entries)
  {
    files := [];
    while true
      invariant d.Valid()
      invariant files == Listing(d.entries[..d.pos])
      modifies d
      decreases |d.entries| - d.pos
    {
      ghost var p := d.pos;
      var e := d.Read();
      if e.None? {
        break;
      }
      ListingStep(d.entries, p);
      if IsDotEntry(e.value.name) {
        continue;
      }
      files := files + [Info(e.value)];
    }
    assert d.entries[..d.pos] == d.entries;
  }

  /** The listing of a concatenation is the concatenation of the listings: order is kept. */
  lemma {:induction false} ListingAppend(a: seq<Entry>, b: seq<Entry>)
    ensures Listing(a + b) == Listing(a) + Listing(b)
    decreases |b|
  {
    if b == [] {
      assert a + b == a;
    } else {
      var b' := b[..|b| - 1];
      assert (a + b)[..|a + b| - 1] == a + b';
      assert (a + b)[|a + b| - 1] == b[|b| - 1];
      ListingAppend(a, b');
    }
  }

  /** Exactly the non-dot entries appear, each as its record. */
  lemma {:induction false} ListingMembers(entries: seq<Entry>, f: FileInfo)
    ensures f in Listing(entries) <==> exists e :: e in entries && !IsDotEntry(e.name) && f == Info(e)
    decreases |entries|
  {
    if entries != [] {
      var init, last := entries[..|entries| - 1], entries[|entries| - 1];
      assert entries == init + [last];
      ListingMembers(init, f);
      if f in Listing(entries) && !(f in Listing(init)) {
        assert f == Info(last) && !IsDotEntry(last.name);
      }
      if exists e :: e in entries && !IsDotEntry(e.name) && f == Info(e) {
        var e :| e in entries && !IsDotEntry(e.name) && f == Info(e);
        if e != last {
          assert e in init;
        }
      }
    }
  }

  /**
   * Every record names a real entry of the directory, and its type is never
   * falsy: it is the type the provider gave for that entry, or "file".
   */
  lemma {:induction false} ListingKinds(entries: seq<Entry>, f: FileInfo)
    requires f in Listing(entries)
    ensures !Falsy(f.kind) && !IsDotEntry(f.name)
    ensures exists e :: e in entries && e.name == f.name && (e.kind == Some(f.kind) || f.kind == "file")
  {
    ListingMembers(entries, f);
    var e :| e in entries && !IsDotEntry(e.name) && f == Info(e);
    assert e.name == f.name;
  }

  /** No record is named "." or "..". */
  lemma NoDotEntries(entries: seq<Entry>, i: nat)
    requires i < |Listing(entries)|
    ensures !IsDotEntry(Listing(entries)[i].name)
  {
  }
}
