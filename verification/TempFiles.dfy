/** The temporary files behind a combined PEM file: written on success, gone after every failure,
    and removed by the clean-up function, whatever fails in between. */
module TempFiles {
  import opened Prelude
  import opened PemSplit

  /** What the operating system does during one call: whether the combined file cannot be read, the names
      it tries for each temporary file until one is free (none left means failure), the number of
      characters written before a failing write, and the names it refuses to remove. */
  datatype Schedule = Schedule(
    readFails: bool,
    certNames: seq<string>, certWriteFails: Option<nat>,
    keyNames: seq<string>, keyWriteFails: Option<nat>,
    stuck: set<string>)

  datatype FileError = BadPem(reason: PemError) | CertCreate | CertWrite | KeyCreate | KeyWrite

  /** The clean-up closure that the caller gets back. */
  datatype Cleanup = Nothing | RemoveBoth(certFile: string, keyFile: string)

  function FirstFree(files: map<string, string>, names: seq<string>): (r: Option<string>)
    ensures r.Some? ==> r.value in names && r.value !in files
    ensures r.None? ==> forall n :: n in names ==> n in files
  {
    if names == [] then None
    else if names[0] !in files then Some(names[0])
    else FirstFree(files, names[1..])
  }

  /** It is the first one. */
  lemma {:induction false} FirstFreeIsFirst(files: map<string, string>, names: seq<string>) returns (i: nat)
    requires FirstFree(files, names).Some?
    ensures i < |names| && FirstFree(files, names) == Some(names[i]) && forall j :: 0 <= j < i ==> names[j] in files
  {
    if names[0] !in files {
      i := 0;
    } else {
      i := FirstFreeIsFirst(files, names[1..]);
      i := i + 1;
    }
  }

  /** A failing write leaves a part of the text in the file. */
  function Written(text: string, fails: Option<nat>): string {
    if fails.Some? && fails.value <= |text| then text[..fails.value] else text
  }

  lemma CreatedAndWritten(before: map<string, string>, name: string, text: string)
    ensures before[name := ""][name := text] == before[name := text]
  {
  }

  function ReadFile(files: map<string, string>, path: string, fails: bool): Option<string> {
    if path in files && !fails then Some(files[path]) else None
  }

  /** The two files that a successful call leaves behind, or the first thing that goes wrong. */
  function Plan(c: Codec, files: map<string, string>, path: string, s: Schedule): Result<(string, string), FileError>
    requires Shrinks(c)
  {
    if path !in files || s.readFails then Err(BadPem(Unreadable))
    else
      match Split(c, files[path])
      case Err(e) => Err(BadPem(e))
      case Ok(pair) =>
        match FirstFree(files, s.certNames)
        case None => Err(CertCreate)
        case Some(cert) =>
          if s.certWriteFails.Some? then Err(CertWrite)
          else
            match FirstFree(files[cert := pair.cert], s.keyNames)
            case None => Err(KeyCreate)
            case Some(key) => if s.keyWriteFails.Some? then Err(KeyWrite) else Ok((cert, key))
  }

  lemma {:induction false} SameNamesFree(files: map<string, string>, files': map<string, string>, names: seq<string>)
    requires files.Keys == files'.Keys
    ensures FirstFree(files, names) == FirstFree(files', names)
  {
    if names != [] {
      SameNamesFree(files, files', names[1..]);
    }
  }

  /** Which names come out, and which failure is reported: the first in this order that happens. */
  lemma PlanMeaning(c: Codec, files: map<string, string>, path: string, s: Schedule)
    requires Shrinks(c)
    ensures var r := Plan(c, files, path, s);
      var readable := path in files && !s.readFails;
      && (!readable ==> r == Err(BadPem(Unreadable)))
      && (readable && Split(c, files[path]).Err? ==> r == Err(BadPem(Split(c, files[path]).error)))
      && (readable && Split(c, files[path]).Ok? ==>
            var free := exists n :: n in s.certNames && n !in files;
            && (r == Err(CertCreate) <==> !free)
            && (r == Err(CertWrite) <==> free && s.certWriteFails.Some?)
            && (free && s.certWriteFails.None? ==>
                  var cert := FirstFree(files, s.certNames).value;
                  var second := exists n :: n in s.keyNames && n !in files && n != cert;
                  && (r == Err(KeyCreate) <==> !second)
                  && (r == Err(KeyWrite) <==> second && s.keyWriteFails.Some?)
                  && (r.Ok? <==> second && s.keyWriteFails.None?)
                  && (r.Ok? ==> r.value == (cert, FirstFree(files[cert := ""], s.keyNames).value))))
  {
    if path in files && !s.readFails && Split(c, files[path]).Ok? && FirstFree(files, s.certNames).Some? {
      var cert := FirstFree(files, s.certNames).value;
      SameNamesFree(files[cert := Split(c, files[path]).value.cert], files[cert := ""], s.keyNames);
    }
    hide Split, FirstFree;
  }

  /** Nothing but files that could not be removed is new, and no older file changed. */
  ghost predicate Restored(before: map<string, string>, after: map<string, string>, stuck: set<string>) {
    && (forall n :: n in before ==> n in after && after[n] == before[n])
    && (forall n :: n in after && n !in before ==> n in stuck)
    && (stuck == {} ==> after == before)
  }

  function Without(files: map<string, string>, name: string, stuck: set<string>): map<string, string> {
    if name in stuck then files else files - {name}
  }

  /** What is left after the clean-up. */
  function Cleaned(files: map<string, string>, cleanup: Cleanup, stuck: set<string>): map<string, string> {
    if cleanup.Nothing? then files else files - ({cleanup.certFile, cleanup.keyFile} - stuck)
  }

  lemma RemovingRestores(before: map<string, string>, cert: string, text: string, stuck: set<string>)
    requires cert !in before
    ensures Restored(before, Without(before[cert := text], cert, stuck), stuck)
  {
  }

  lemma RemovingBothRestores(
      before: map<string, string>, cert: string, text: string, key: string, part: string, stuck: set<string>)
    requires cert !in before && key !in before && cert != key
    ensures Restored(before, Without(Without(before[cert := text][key := part], cert, stuck), key, stuck), stuck)
  {
  }

  class Disk {
    var files: map<string, string>

    method CreateTemp(names: seq<string>) returns (name: Option<string>)
      modifies this
      ensures name == FirstFree(old(files), names)
      ensures files == if name.Some? then old(files)[name.value := ""] else old(files)
    {
      name := FirstFree(files, names);
      if name.Some? {
        files := files[name.value := ""];
      }
    }

    method Write(name: string, text: string, fails: Option<nat>) returns (ok: bool)
      requires name in files
      modifies this
      ensures ok == fails.None?
      ensures files == old(files)[name := Written(text, fails)]
    {
      files := files[name := Written(text, fails)];
      ok := fails.None?;
    }

    method Remove(name: string, stuck: set<string>)
      modifies this
      ensures files == Without(old(files), name, stuck)
    {
      if name !in stuck {
        files := files - {name};
      }
    }

    /** ParseCombinedPEMFile. */
    method ParseCombinedPemFile(c: Codec, path: string, s: Schedule)
      returns (r: Result<(string, string), FileError>, cleanup: Cleanup)
      requires Shrinks(c)
      modifies this
      ensures r == Plan(c, old(files), path, s)
      ensures r.Err? ==> cleanup == Nothing && Restored(old(files), files, s.stuck)
      ensures r.Ok? ==>
        var (cert, key), pair := r.value, Split(c, old(files)[path]).value;
        && cert !in old(files) && key !in old(files) && cert != key
        && files == old(files)[cert := pair.cert][key := pair.key]
        && cleanup == RemoveBoth(cert, key)
    {
      ghost var before := files;
      assert Restored(before, before, s.stuck);
      hide Split, FirstFree, Restored, Without;
      cleanup := Nothing;
      var parsed := ParseCombinedPem(c, ReadFile(files, path, s.readFails));
      if parsed.Err? {
        return Err(BadPem(parsed.error)), cleanup;
      }
      var cert := CreateTemp(s.certNames);
      if cert.None? {
        return Err(CertCreate), cleanup;
      }
      var written := Write(cert.value, parsed.value.cert, s.certWriteFails);
      CreatedAndWritten(before, cert.value, Written(parsed.value.cert, s.certWriteFails));
      RemovingRestores(before, cert.value, Written(parsed.value.cert, s.certWriteFails), s.stuck);
      if !written {
        Remove(cert.value, s.stuck);
        return Err(CertWrite), cleanup;
      }
      ghost var one := files;
      var key := CreateTemp(s.keyNames);
      if key.None? {
        Remove(cert.value, s.stuck);
        return Err(KeyCreate), cleanup;
      }
      written := Write(key.value, parsed.value.key, s.keyWriteFails);
      CreatedAndWritten(one, key.value, Written(parsed.value.key, s.keyWriteFails));
      if !written {
        ghost var part := Written(parsed.value.key, s.keyWriteFails);
        RemovingBothRestores(before, cert.value, parsed.value.cert, key.value, part, s.stuck);
        Remove(cert.value, s.stuck);
        Remove(key.value, s.stuck);
        return Err(KeyWrite), cleanup;
      }
      r, cleanup := Ok((cert.value, key.value)), RemoveBoth(cert.value, key.value);
    }

    method RunCleanup(cleanup: Cleanup, stuck: set<string>)
      modifies this
      ensures files == Cleaned(old(files), cleanup, stuck)
    {
      if cleanup.RemoveBoth? {
        Remove(cleanup.certFile, stuck);
        Remove(cleanup.keyFile, stuck);
      }
    }
  }
}
