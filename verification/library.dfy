/**
 * The user's library ("Your Library"): an ordered list of songs the user
 * has added, identified by their `file` field. The component keeps it as an
 * array in state; adding and removing both go through one toggle action.
 */
module Library {
  import opened Tracks

  /** Some entry of `lib` has the given file: the question "is this song liked?". */
  ghost predicate HasFile(lib: seq<Track>, file: string)
  {
    exists i :: 0 <= i < |lib| && lib[i].file == file
  }

  /** At most one entry per file. */
  ghost predicate UniqueFiles(lib: seq<Track>)
  {
    forall i, j :: 0 <= i < j < |lib| ==> lib[i].file != lib[j].file
  }

  /** `a` is `b` with some entries deleted and the rest in their original order. */
  ghost predicate IsSubseq(a: seq<Track>, b: seq<Track>)
    decreases |b|
  {
    if |a| == 0 then true
    else if |b| == 0 then false
    else (a[0] == b[0] && IsSubseq(a[1..], b[1..])) || IsSubseq(a, b[1..])
  }

  /**
   * `r` is what is left of `lib` once every entry with `file` is gone:
   * no entry of `r` has that file, every other song keeps its number of
   * occurrences, and the survivors keep their relative order.
   */
  ghost predicate Removed(r: seq<Track>, lib: seq<Track>, file: string)
  {
    && (forall i :: 0 <= i < |r| ==> r[i].file != file)
    && (forall t: Track :: t.file != file ==> multiset(r)[t] == multiset(lib)[t])
    && IsSubseq(r, lib)
  }

  lemma HasFileCons(lib: seq<Track>, file: string)
    requires |lib| > 0
    ensures HasFile(lib, file) <==> lib[0].file == file || HasFile(lib[1..], file)
  {
  }

  /**
   * `Array.prototype.find` with the predicate "same file": the first entry
   * of `lib` whose file is `file`, or nothing.
   */
  function Find(lib: seq<Track>, file: string): (r: Option<Track>)
    ensures r.None? <==> !HasFile(lib, file)
    ensures r.Some? ==> r.value.file == file
    ensures r.Some? ==> exists i :: 0 <= i < |lib| && lib[i] == r.value
                                   && forall j :: 0 <= j < i ==> lib[j].file != file
    decreases |lib|
  {
    if |lib| == 0 then None
    else if lib[0].file == file then Some(lib[0])
    else
      HasFileCons(lib, file);
      var r := Find(lib[1..], file);
      if r.None? then r
      else
        var i :| 0 <= i < |lib[1..]| && lib[1..][i] == r.value
                 && forall j :: 0 <= j < i ==> lib[1..][j].file != file;
        assert lib[i + 1] == r.value;
        assert forall j :: 0 <= j < i + 1 ==> lib[j].file != file by {
          forall j | 0 <= j < i + 1 ensures lib[j].file != file {
            if j > 0 { assert lib[j] == lib[1..][j - 1]; }
          }
        }
        r
  }

  /** The "liked" test: `find` returned an entry (an entry object is always truthy). */
  predicate Liked(lib: seq<Track>, file: string)
    ensures Liked(lib, file) <==> HasFile(lib, file)
  {
    Find(lib, file).Some?
  }

  /** `Array.prototype.filter` keeping the entries whose file differs from `file`. */
  function RemoveFile(lib: seq<Track>, file: string): (r: seq<Track>)
    ensures |r| <= |lib|
    ensures forall i :: 0 <= i < |r| ==> r[i].file != file
    ensures forall t :: t in r ==> t in lib
    decreases |lib|
  {
    if |lib| == 0 then []
    else
      var rest := RemoveFile(lib[1..], file);
      if lib[0].file == file then rest
      else [lib[0]] + rest
  }

  /** The filter's result is what `Removed` describes. */
  lemma {:induction false} RemoveFileMeetsRemoved(lib: seq<Track>, file: string)
    ensures Removed(RemoveFile(lib, file), lib, file)
    decreases |lib|
  {
    if |lib| > 0 {
      var rest := RemoveFile(lib[1..], file);
      RemoveFileMeetsRemoved(lib[1..], file);
      assert lib == [lib[0]] + lib[1..];
      if lib[0].file != file {
        var r := [lib[0]] + rest;
        assert r[1..] == rest;
      }
    }
  }

  /** The song is added at the end when absent, and every entry with its file is removed when present. */
  function Toggle(lib: seq<Track>, song: Track): (r: seq<Track>)
    ensures HasFile(r, song.file) <==> !HasFile(lib, song.file)
    ensures !HasFile(lib, song.file) ==> |r| == |lib| + 1 && r[..|lib|] == lib && r[|lib|] == song
    ensures HasFile(lib, song.file) ==> Removed(r, lib, song.file)
  {
    if Liked(lib, song.file) then
      RemoveFileMeetsRemoved(lib, song.file);
      RemoveFile(lib, song.file)
    else
      var r := lib + [song];
      assert r[|lib|].file == song.file;
      r
  }

  // ---------------------------------------------------------------------
  // Removed pins down its result: RemoveFile is the only list it admits.
  // ---------------------------------------------------------------------

  lemma {:induction false} SubseqMultiset(a: seq<Track>, b: seq<Track>)
    requires IsSubseq(a, b)
    ensures multiset(a) <= multiset(b)
    decreases |b|
  {
    if |a| == 0 {
    } else if a[0] == b[0] && IsSubseq(a[1..], b[1..]) {
      SubseqMultiset(a[1..], b[1..]);
      assert a == [a[0]] + a[1..];
      assert b == [b[0]] + b[1..];
    } else {
      SubseqMultiset(a, b[1..]);
      assert b == [b[0]] + b[1..];
    }
  }

  /** One step of the filter. */
  lemma RemoveFileCons(lib: seq<Track>, file: string)
    requires |lib| > 0
    ensures lib[0].file == file ==> RemoveFile(lib, file) == RemoveFile(lib[1..], file)
    ensures lib[0].file != file ==> RemoveFile(lib, file) == [lib[0]] + RemoveFile(lib[1..], file)
  {
  }

  /** A dropped head entry can be skipped in the description. */
  lemma RemovedDropHead(x: seq<Track>, lib: seq<Track>, file: string)
    requires |lib| > 0 && lib[0].file == file
    requires Removed(x, lib, file)
    ensures Removed(x, lib[1..], file)
  {
    assert lib == [lib[0]] + lib[1..];
    if |x| > 0 {
      assert x[0] != lib[0];
    }
    forall t: Track | t.file != file ensures multiset(x)[t] == multiset(lib[1..])[t] {
      assert multiset(lib)[t] == multiset([lib[0]])[t] + multiset(lib[1..])[t];
    }
  }

  /** A kept head entry must open the described list. */
  lemma RemovedTakeHead(x: seq<Track>, lib: seq<Track>, file: string)
    requires |lib| > 0 && lib[0].file != file
    requires Removed(x, lib, file)
    ensures |x| > 0 && x[0] == lib[0] && Removed(x[1..], lib[1..], file)
  {
    var h := lib[0];
    assert lib == [h] + lib[1..];
    assert multiset(lib)[h] >= 1;
    assert |x| > 0;
    assert x == [x[0]] + x[1..];
    if !(x[0] == h && IsSubseq(x[1..], lib[1..])) {
      SubseqMultiset(x, lib[1..]);
      assert false;
    }
    forall t: Track | t.file != file ensures multiset(x[1..])[t] == multiset(lib[1..])[t] {
      assert multiset(x)[t] == multiset([h])[t] + multiset(x[1..])[t];
      assert multiset(lib)[t] == multiset([h])[t] + multiset(lib[1..])[t];
    }
    forall i | 0 <= i < |x[1..]| ensures x[1..][i].file != file {
      assert x[1..][i] == x[i + 1];
    }
  }

  /** Any list that satisfies `Removed` is exactly what the filter returns. */
  lemma {:induction false} RemovedIsRemoveFile(x: seq<Track>, lib: seq<Track>, file: string)
    requires Removed(x, lib, file)
    ensures x == RemoveFile(lib, file)
    decreases |lib|
  {
    if |lib| == 0 {
    } else {
      RemoveFileCons(lib, file);
      if lib[0].file == file {
        RemovedDropHead(x, lib, file);
        RemovedIsRemoveFile(x, lib[1..], file);
      } else {
        RemovedTakeHead(x, lib, file);
        RemovedIsRemoveFile(x[1..], lib[1..], file);
        assert x == [x[0]] + x[1..];
      }
    }
  }

  // ---------------------------------------------------------------------
  // Properties of the toggle
  // ---------------------------------------------------------------------

  lemma {:induction false} RemoveFileAbsent(lib: seq<Track>, file: string)
    requires !HasFile(lib, file)
    ensures RemoveFile(lib, file) == lib
    decreases |lib|
  {
    if |lib| > 0 {
      HasFileCons(lib, file);
      RemoveFileCons(lib, file);
      RemoveFileAbsent(lib[1..], file);
      assert lib == [lib[0]] + lib[1..];
    }
  }

  lemma {:induction false} RemoveFileAppend(lib: seq<Track>, song: Track)
    requires !HasFile(lib, song.file)
    ensures RemoveFile(lib + [song], song.file) == lib
    decreases |lib|
  {
    var l := lib + [song];
    RemoveFileCons(l, song.file);
    if |lib| == 0 {
      assert l[1..] == [];
    } else {
      HasFileCons(lib, song.file);
      assert l[1..] == lib[1..] + [song];
      RemoveFileAppend(lib[1..], song);
      assert lib == [lib[0]] + lib[1..];
    }
  }

  /** Adding a song that was not in the library and toggling it again restores the library exactly. */
  lemma ToggleTwice(lib: seq<Track>, song: Track)
    requires !HasFile(lib, song.file)
    ensures Toggle(Toggle(lib, song), song) == lib
  {
    var once := Toggle(lib, song);
    assert once == lib + [song];
    RemoveFileAppend(lib, song);
  }

  lemma UniqueTail(lib: seq<Track>)
    requires |lib| > 0 && UniqueFiles(lib)
    ensures UniqueFiles(lib[1..])
  {
  }

  lemma UniqueCons(h: Track, rest: seq<Track>)
    requires UniqueFiles(rest)
    requires forall k :: 0 <= k < |rest| ==> rest[k].file != h.file
    ensures UniqueFiles([h] + rest)
  {
  }

  lemma RemoveFileMember(lib: seq<Track>, file: string, k: int)
    requires 0 <= k < |RemoveFile(lib, file)|
    ensures exists m :: 0 <= m < |lib| && lib[m] == RemoveFile(lib, file)[k]
  {
    var r := RemoveFile(lib, file);
    assert r[k] in r;
  }

  /** Removing the entries of one file keeps a library with one entry per file that way. */
  lemma {:induction false} RemoveFileKeepsUnique(lib: seq<Track>, file: string)
    requires UniqueFiles(lib)
    ensures UniqueFiles(RemoveFile(lib, file))
    decreases |lib|
  {
    if |lib| > 0 {
      var tail := lib[1..];
      UniqueTail(lib);
      RemoveFileKeepsUnique(tail, file);
      var rest := RemoveFile(tail, file);
      if lib[0].file != file {
        forall k | 0 <= k < |rest| ensures rest[k].file != lib[0].file {
          RemoveFileMember(tail, file, k);
          var m :| 0 <= m < |tail| && tail[m] == rest[k];
          assert tail[m] == lib[m + 1];
        }
        UniqueCons(lib[0], rest);
      }
    }
  }

  /** A toggle keeps a library with one entry per file that way. */
  lemma ToggleKeepsUnique(lib: seq<Track>, song: Track)
    requires UniqueFiles(lib)
    ensures UniqueFiles(Toggle(lib, song))
  {
    if HasFile(lib, song.file) {
      RemoveFileKeepsUnique(lib, song.file);
    } else {
      var r := Toggle(lib, song);
      forall i, j | 0 <= i < j < |r| ensures r[i].file != r[j].file {
        if j == |lib| {
          assert r[i] == lib[i];
        } else {
          assert r[i] == lib[i] && r[j] == lib[j];
        }
      }
    }
  }

  /** In a library with one entry per file, the filter removes just the entry at `k`. */
  lemma {:induction false} RemoveFileAt(lib: seq<Track>, file: string, k: int)
    requires UniqueFiles(lib) && 0 <= k < |lib| && lib[k].file == file
    ensures RemoveFile(lib, file) == lib[..k] + lib[k + 1..]
    decreases k
  {
    var tail := lib[1..];
    RemoveFileCons(lib, file);
    if k == 0 {
      assert !HasFile(tail, file) by {
        forall i | 0 <= i < |tail| ensures tail[i].file != file {
          assert tail[i] == lib[i + 1];
        }
      }
      RemoveFileAbsent(tail, file);
      assert lib[..0] + lib[1..] == tail;
    } else {
      assert lib[0].file != file;
      UniqueTail(lib);
      assert tail[k - 1] == lib[k];
      RemoveFileAt(tail, file, k - 1);
      assert lib[..k] + lib[k + 1..] == [lib[0]] + (tail[..k - 1] + tail[k..]);
    }
  }

  /**
   * Toggling a song that is already in the library twice moves the entry for
   * its file to the end and replaces it by the toggled song. The set of files
   * is unchanged; the list is unchanged only when the entry was last and equal
   * to the song.
   */
  lemma ToggleTwicePresent(lib: seq<Track>, song: Track, k: int)
    requires UniqueFiles(lib) && 0 <= k < |lib| && lib[k].file == song.file
    ensures Toggle(Toggle(lib, song), song) == lib[..k] + lib[k + 1..] + [song]
  {
    assert HasFile(lib, song.file);
    RemoveFileAt(lib, song.file, k);
    var once := Toggle(lib, song);
    assert once == lib[..k] + lib[k + 1..];
    assert !HasFile(once, song.file);
  }
}
