/**
 * The two ways the directory loaders combine per-file results, each
 * written as the loop body does it, one file after another:
 *   `if temp: docs.append(temp)`  (load_dir, load_every_file)
 *   `if temp: docs.extend(temp)`  (pdf_load_dir, json_load_dir)
 */
module BatchFold {

  /** The per-file results of a walk over a listing, in listing order. */
  function PerFile<T>(files: seq<string>, load: string -> seq<T>): (rs: seq<seq<T>>)
    ensures |rs| == |files|
    ensures forall j :: 0 <= j < |files| ==> rs[j] == load(files[j])
  {
    seq(|files|, j requires 0 <= j < |files| => load(files[j]))
  }

  lemma PerFileConcat<T>(a: seq<string>, b: seq<string>, load: string -> seq<T>)
    ensures PerFile(a + b, load) == PerFile(a, load) + PerFile(b, load)
  {
    var l, r := PerFile(a + b, load), PerFile(a, load) + PerFile(b, load);
    forall j | 0 <= j < |l| ensures l[j] == r[j] {
      if j < |a| {
        assert (a + b)[j] == a[j];
      } else {
        assert (a + b)[j] == b[j - |a|];
      }
    }
  }

  /** The nested result of `for temp in rs: if temp: docs.append(temp)`. */
  function Appended<T>(rs: seq<seq<T>>): seq<seq<T>>
  {
    if |rs| == 0 then []
    else
      var last := rs[|rs| - 1];
      Appended(rs[..|rs| - 1]) + (if |last| > 0 then [last] else [])
  }

  /** The flat result of `for temp in rs: if temp: docs.extend(temp)`. */
  function Extended<T>(rs: seq<seq<T>>): seq<T>
  {
    if |rs| == 0 then []
    else
      var last := rs[|rs| - 1];
      Extended(rs[..|rs| - 1]) + (if |last| > 0 then last else [])
  }

  /**
   * At most one entry per result, each entry a non-empty result: the entry
   * for the result at some position of the listing.
   */
  lemma {:induction false} AppendedEntries<T>(rs: seq<seq<T>>)
    ensures forall k :: 0 <= k < |Appended(rs)| ==>
              |Appended(rs)[k]| > 0 && exists j :: 0 <= j < |rs| && Appended(rs)[k] == rs[j]
  {
    if |rs| > 0 {
      var init := rs[..|rs| - 1];
      AppendedEntries(init);
      forall k | 0 <= k < |Appended(init)|
        ensures exists j :: 0 <= j < |rs| && Appended(init)[k] == rs[j]
      {
        var j :| 0 <= j < |init| && Appended(init)[k] == init[j];
        assert init[j] == rs[j];
      }
    }
  }

  /** One more loop iteration of the appending fold. */
  lemma AppendedStep<T>(rs: seq<seq<T>>, i: nat)
    requires i < |rs|
    ensures Appended(rs[..i + 1]) == Appended(rs[..i]) + (if |rs[i]| > 0 then [rs[i]] else [])
  {
    assert rs[..i + 1][..i] == rs[..i];
  }

  /** One more loop iteration of the extending fold. */
  lemma ExtendedStep<T>(rs: seq<seq<T>>, i: nat)
    requires i < |rs|
    ensures Extended(rs[..i + 1]) == Extended(rs[..i]) + (if |rs[i]| > 0 then rs[i] else [])
  {
    assert rs[..i + 1][..i] == rs[..i];
  }

  /** Plain concatenation of all results, empty ones included. */
  function Flatten<T>(rs: seq<seq<T>>): seq<T> {
    if |rs| == 0 then [] else Flatten(rs[..|rs| - 1]) + rs[|rs| - 1]
  }

  lemma {:induction false} FlattenConcat<T>(a: seq<seq<T>>, b: seq<seq<T>>)
    ensures Flatten(a + b) == Flatten(a) + Flatten(b)
  {
    if |b| == 0 {
      assert a + b == a;
    } else {
      assert (a + b)[..|a + b| - 1] == a + b[..|b| - 1];
      FlattenConcat(a, b[..|b| - 1]);
    }
  }

  /**
   * Appending keeps order and works file by file: the entries for a
   * listing `a + b` are those for `a` followed by those for `b`.
   */
  lemma {:induction false} AppendedConcat<T>(a: seq<seq<T>>, b: seq<seq<T>>)
    ensures Appended(a + b) == Appended(a) + Appended(b)
  {
    if |b| == 0 {
      assert a + b == a;
    } else {
      assert (a + b)[..|a + b| - 1] == a + b[..|b| - 1];
      AppendedConcat(a, b[..|b| - 1]);
    }
  }

  /** The same for extending: each file's documents arrive whatever the others do. */
  lemma {:induction false} ExtendedConcat<T>(a: seq<seq<T>>, b: seq<seq<T>>)
    ensures Extended(a + b) == Extended(a) + Extended(b)
  {
    if |b| == 0 {
      assert a + b == a;
    } else {
      assert (a + b)[..|a + b| - 1] == a + b[..|b| - 1];
      ExtendedConcat(a, b[..|b| - 1]);
    }
  }

  /** One output entry per non-empty result, and only then. */
  lemma AppendedSingle<T>(r: seq<T>)
    ensures Appended([r]) == if |r| > 0 then [r] else []
  {
    assert [r][..0] == [];
  }

  /** Every result in the list is non-empty. */
  ghost predicate AllNonEmpty<T>(rs: seq<seq<T>>) {
    forall k :: 0 <= k < |rs| ==> |rs[k]| > 0
  }

  /** At most one entry per result. */
  lemma {:induction false} AppendedLength<T>(rs: seq<seq<T>>)
    ensures |Appended(rs)| <= |rs|
  {
    if |rs| > 0 {
      AppendedLength(rs[..|rs| - 1]);
    }
  }

  /**
   * The nested result has exactly as many entries as the listing iff every
   * file produced documents, and is then the list of per-file results.
   */
  lemma {:induction false} AppendedAllNonEmpty<T>(rs: seq<seq<T>>)
    ensures |Appended(rs)| == |rs| <==> AllNonEmpty(rs)
    ensures AllNonEmpty(rs) ==> Appended(rs) == rs
  {
    if |rs| > 0 {
      var init, last := rs[..|rs| - 1], rs[|rs| - 1];
      AppendedAllNonEmpty(init);
      AppendedLength(init);
      assert rs == init + [last];
      assert AllNonEmpty(rs) <==> AllNonEmpty(init) && |last| > 0 by {
        assert forall k :: 0 <= k < |init| ==> init[k] == rs[k];
      }
    }
  }

  /**
   * The `if temp:` test does not change what `extend` produces: empty
   * results add nothing.
   */
  lemma {:induction false} ExtendedIsFlatten<T>(rs: seq<seq<T>>)
    ensures Extended(rs) == Flatten(rs)
  {
    if |rs| > 0 {
      ExtendedIsFlatten(rs[..|rs| - 1]);
    }
  }

  /**
   * The two folds carry the same documents: concatenating the nested
   * result of `append` gives the flat result of `extend`.
   */
  lemma {:induction false} FlattenAppended<T>(rs: seq<seq<T>>)
    ensures Flatten(Appended(rs)) == Extended(rs)
  {
    if |rs| > 0 {
      var init := rs[..|rs| - 1];
      var last := rs[|rs| - 1];
      FlattenAppended(init);
      FlattenConcat(Appended(init), if |last| > 0 then [last] else []);
      if |last| > 0 {
        assert [last][..0] == [];
      }
    }
  }

  /**
   * A listed file whose result is empty contributes nothing to the nested
   * result: the listing without it gives the same entries.
   */
  lemma AppendedSkipsEmpty<T>(a: seq<string>, name: string, b: seq<string>, load: string -> seq<T>)
    requires |load(name)| == 0
    ensures Appended(PerFile(a + [name] + b, load)) == Appended(PerFile(a + b, load))
  {
    var ra, rn, rb := PerFile(a, load), PerFile([name], load), PerFile(b, load);
    assert PerFile(a + [name] + b, load) == ra + rn + rb by {
      PerFileConcat(a + [name], b, load);
      PerFileConcat(a, [name], load);
    }
    assert PerFile(a + b, load) == ra + rb by {
      PerFileConcat(a, b, load);
    }
    assert Appended(rn) == [] by {
      assert rn == [rn[0]];
      AppendedSingle(rn[0]);
    }
    calc {
      Appended(ra + rn + rb);
    == { AppendedConcat(ra + rn, rb); }
      Appended(ra + rn) + Appended(rb);
    == { AppendedConcat(ra, rn); }
      Appended(ra) + Appended(rn) + Appended(rb);
    == { AppendedConcat(ra, rb); }
      Appended(ra + rb);
    }
  }

  /** The same for the flat result. */
  lemma ExtendedSkipsEmpty<T>(a: seq<string>, name: string, b: seq<string>, load: string -> seq<T>)
    requires |load(name)| == 0
    ensures Extended(PerFile(a + [name] + b, load)) == Extended(PerFile(a + b, load))
  {
    var ra, rn, rb := PerFile(a, load), PerFile([name], load), PerFile(b, load);
    assert PerFile(a + [name] + b, load) == ra + rn + rb by {
      PerFileConcat(a + [name], b, load);
      PerFileConcat(a, [name], load);
    }
    assert PerFile(a + b, load) == ra + rb by {
      PerFileConcat(a, b, load);
    }
    assert Extended(rn) == [] by {
      assert rn[..0] == [];
    }
    calc {
      Extended(ra + rn + rb);
    == { ExtendedConcat(ra + rn, rb); }
      Extended(ra + rn) + Extended(rb);
    == { ExtendedConcat(ra, rn); }
      Extended(ra) + Extended(rn) + Extended(rb);
    == { ExtendedConcat(ra, rb); }
      Extended(ra + rb);
    }
  }

  /** Each entry of an appending walk is the non-empty result of some listed file. */
  lemma AppendedEntriesAreLoaded<T>(files: seq<string>, load: string -> seq<T>)
    ensures forall k :: 0 <= k < |Appended(PerFile(files, load))| ==>
              |Appended(PerFile(files, load))[k]| > 0 &&
              exists j :: 0 <= j < |files| && Appended(PerFile(files, load))[k] == load(files[j])
  {
    var rs := PerFile(files, load);
    AppendedEntries(rs);
    forall k | 0 <= k < |Appended(rs)|
      ensures exists j :: 0 <= j < |files| && Appended(rs)[k] == load(files[j])
    {
      var j :| 0 <= j < |rs| && Appended(rs)[k] == rs[j];
      assert rs[j] == load(files[j]);
    }
  }

  /** If every listed file produced documents, the walk keeps every result, in order. */
  lemma AppendedAllLoaded<T>(files: seq<string>, load: string -> seq<T>)
    ensures (forall j :: 0 <= j < |files| ==> |load(files[j])| > 0) ==>
              Appended(PerFile(files, load)) == PerFile(files, load)
  {
    var rs := PerFile(files, load);
    if forall j :: 0 <= j < |files| ==> |load(files[j])| > 0 {
      assert AllNonEmpty(rs);
      AppendedAllNonEmpty(rs);
    }
  }

  /**
   * The shape of an appending walk: at most one entry per listed file,
   * each a non-empty result of some listed file; if every file produced
   * documents, exactly the per-file results.
   */
  lemma AppendedShape<T>(files: seq<string>, load: string -> seq<T>)
    ensures var docs := Appended(PerFile(files, load));
            && |docs| <= |files|
            && (forall k :: 0 <= k < |docs| ==>
                  |docs[k]| > 0 && exists j :: 0 <= j < |files| && docs[k] == load(files[j]))
            && ((forall j :: 0 <= j < |files| ==> |load(files[j])| > 0) ==> docs == PerFile(files, load))
  {
    AppendedLength(PerFile(files, load));
    AppendedEntriesAreLoaded(files, load);
    AppendedAllLoaded(files, load);
  }
}
