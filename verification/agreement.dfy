/** Whether the output path the upload handler reports is the path the batch
    writes. The batch derives its name from the temporary path, which carries
    the folder and the `temp_` prefix; the handler derives it from the bare
    filename. They agree when the folder is absolute and has no `temp_` in it
    and the filename is plain (no separator, no leading dot); that condition
    is sufficient, not necessary. For a plain name they never agree when the
    folder is relative or, if absolute, contains `temp_`. */
module Agreement {
  import opened Strings
  import opened Paths
  import opened Replace
  import opened Config
  import opened Batch
  import opened App

  /** A plain upload name: no separator, and not starting with a dot. */
  predicate PlainName(name: string) {
    '/' !in name && (name == [] || name[0] != '.')
  }

  /** A folder prefix that `str.replace('temp_', '')` leaves alone. */
  predicate TempFree(folder: string) {
    folder != "" && RemoveTemp(DirPrefix(folder)) == DirPrefix(folder)
  }

  /** A plain name splits at its last dot, if it has one. */
  lemma {:induction false} PlainNameSplit(name: string)
    requires PlainName(name)
    ensures '.' in name ==> SplitExt(name) == (name[..RFind(name, '.')], name[RFind(name, '.')..])
    ensures '.' !in name ==> SplitExt(name) == (name, "")
  {
    var dot := RFind(name, '.');
    assert RFind(name, '/') == -1;
    if '.' in name {
      var k :| 0 <= k < |name| && name[k] == '.';
      assert dot >= k >= 0;
      assert dot != 0;
      assert HasNonDot(name, 0, dot) by {
        assert name[0] != '.';
      }
    }
  }

  /** Prefixing the final component with `temp_` under a folder does not move
      the extension: the stem gains the folder and the prefix, the extension
      stays the name's own. */
  lemma {:induction false} SplitExtUnderTemp(dir: string, name: string)
    requires |dir| > 0 && dir[|dir| - 1] == '/' && PlainName(name)
    ensures SplitExt(dir + (TempMarker + name)) == (dir + (TempMarker + Stem(name)), Ext(name))
  {
    var tail := TempMarker + name;
    var p := dir + tail;
    assert '/' !in tail by {
      assert forall i :: 0 <= i < |tail| ==> tail[i] == if i < 5 then TempMarker[i] else name[i - 5];
    }
    RFindAppend(dir, tail, '/');
    assert RFind(dir, '/') == |dir| - 1;
    var sep := RFind(p, '/');
    assert sep == |dir| - 1;
    PlainNameSplit(name);
    RFindAppend(dir, tail, '.');
    RFindAppend(TempMarker, name, '.');
    if '.' in name {
      var dn := RFind(name, '.');
      assert '.' in tail by {
        assert tail[5 + dn] == '.';
      }
      var dot := RFind(p, '.');
      assert dot == |dir| + 5 + dn;
      assert p[|dir|] == 't';
      assert HasNonDot(p, sep + 1, dot);
      assert p[..dot] == dir + (TempMarker + name[..dn]);
      assert p[dot..] == name[dn..];
    } else {
      assert '.' !in tail by {
        assert forall i :: 0 <= i < |tail| ==> tail[i] == if i < 5 then TempMarker[i] else name[i - 5];
      }
      assert RFind(p, '.') == RFind(dir, '.');
      assert RFind(dir, '.') != |dir| - 1;
    }
  }

  /** Tagging a name without separators with a model name keeps it free of separators. */
  lemma TaggedNameIsRelative(name: string, model: EnhancementModel)
    requires '/' !in name
    ensures '/' !in TaggedName(name, model.Value())
  {
    SplitExtLaws(name);
    var st, ex := Stem(name), Ext(name);
    assert forall c :: c in st ==> c in st + ex;
    assert forall c :: c in ex ==> c in st + ex;
    assert TaggedName(name, model.Value()) == st + "_" + model.Value() + ex;
  }

  /** The name the handler reports, placed under the folder. */
  lemma {:induction false} PredictedUnderFolder(folder: string, name: string, model: EnhancementModel)
    requires folder != "" && PlainName(name)
    ensures PredictedPath(folder, name, model.Value()) ==
            DirPrefix(folder) + RemoveTemp(TaggedName(name, model.Value()))
    ensures !IsAbs(RemoveTemp(TaggedName(name, model.Value())))
  {
    var n := TaggedName(name, model.Value());
    TaggedNameIsRelative(name, model);
    RemoveTempShrinks(n);
    assert '/' !in RemoveTemp(n);
    JoinLaws(folder, RemoveTemp(n));
  }

  /** The name the batch builds from the temporary path, before `temp_`
      removal: the folder prefix, the marker, then the handler's own name. */
  lemma {:induction false} TempPathName(folder: string, name: string, v: string)
    requires folder != "" && PlainName(name)
    ensures var t := TempPath(folder, name);
      TaggedName(t, v) == DirPrefix(folder) + (TempMarker + TaggedName(name, v))
  {
    var dir := DirPrefix(folder);
    var t := TempPath(folder, name);
    JoinLaws(folder, TempMarker + name);
    assert t == dir + (TempMarker + name);
    SplitExtUnderTemp(dir, name);
    assert Stem(t) == dir + (TempMarker + Stem(name)) && Ext(t) == Ext(name);
    Regroup(dir, TempMarker, Stem(name), "_", v, Ext(name));
  }

  /** Concatenation regrouped. */
  lemma Regroup(a: string, b: string, c: string, x: string, y: string, z: string)
    ensures (a + (b + c)) + x + y + z == a + (b + (c + x + y + z))
  {
  }

  /** The name the batch derives from the temporary path: the folder prefix
      survives and the `temp_` prefix is gone. */
  lemma {:induction false} BatchNameFromTempPath(folder: string, name: string, v: string)
    requires TempFree(folder) && PlainName(name)
    ensures var t := TempPath(folder, name);
      RemoveTemp(TaggedName(t, v)) == DirPrefix(folder) + RemoveTemp(TaggedName(name, v))
  {
    var dir := DirPrefix(folder);
    var n := TaggedName(name, v);
    TempPathName(folder, name, v);
    RemoveTempAppend(dir, TempMarker + n);
    RemoveTempDropsPrefix(n);
  }

  /** Under a temp-free folder and for a plain name, the batch writes to the
      handler's reported path joined under the folder once more. */
  lemma WrittenIsReportedJoinedAgain(folder: string, name: string, model: EnhancementModel)
    requires TempFree(folder) && PlainName(name)
    ensures OutputPath(TempPath(folder, name), folder, model) ==
            Join(folder, PredictedPath(folder, name, model.Value()))
  {
    BatchNameFromTempPath(folder, name, model.Value());
    PredictedUnderFolder(folder, name, model);
  }

  /** With an absolute, temp-free folder and a plain name the reported path
      is exactly the path written. */
  lemma AbsoluteFolderAgrees(folder: string, name: string, model: EnhancementModel)
    requires TempFree(folder) && IsAbs(folder) && PlainName(name)
    ensures OutputPath(TempPath(folder, name), folder, model) == PredictedPath(folder, name, model.Value())
  {
    WrittenIsReportedJoinedAgain(folder, name, model);
    PredictedUnderFolder(folder, name, model);
    JoinLaws(folder, PredictedPath(folder, name, model.Value()));
  }

  /** With an absolute folder that contains the marker, the batch's removal
      pass rewrites the folder part of the written path as well, so the path
      written is shorter than the one reported and never equal to it. */
  lemma {:induction false} TempFolderDisagrees(folder: string, name: string, model: EnhancementModel)
    requires folder != "" && IsAbs(folder) && PlainName(name) && !TempFree(folder)
    ensures OutputPath(TempPath(folder, name), folder, model) != PredictedPath(folder, name, model.Value())
    ensures |OutputPath(TempPath(folder, name), folder, model)| < |PredictedPath(folder, name, model.Value())|
  {
    var dir := DirPrefix(folder);
    var n := TaggedName(name, model.Value());
    TempPathName(folder, name, model.Value());
    RemoveTempAppend(dir, TempMarker + n);
    RemoveTempDropsPrefix(n);
    var cleaned := RemoveTemp(dir);
    RemoveTempShrinks(dir);
    RemoveTempSameLength(dir);
    assert |cleaned| < |dir|;
    assert IsAbs(cleaned) by {
      assert dir == [dir[0]] + dir[1..];
      RemoveTempKeepsNonT(dir[0], dir[1..]);
    }
    var written := cleaned + RemoveTemp(n);
    assert IsAbs(written);
    JoinLaws(folder, written);
    PredictedUnderFolder(folder, name, model);
  }

  /** With a relative folder (such as the default "uploads") the batch joins
      the folder twice, so the reported path is never the one written. */
  lemma RelativeFolderJoinsTwice(folder: string, name: string, model: EnhancementModel)
    requires TempFree(folder) && !IsAbs(folder) && PlainName(name)
    ensures OutputPath(TempPath(folder, name), folder, model) ==
            DirPrefix(folder) + PredictedPath(folder, name, model.Value())
    ensures OutputPath(TempPath(folder, name), folder, model) != PredictedPath(folder, name, model.Value())
  {
    WrittenIsReportedJoinedAgain(folder, name, model);
    PredictedUnderFolder(folder, name, model);
    var predicted := PredictedPath(folder, name, model.Value());
    assert !IsAbs(predicted) by {
      assert predicted[0] == DirPrefix(folder)[0] == folder[0];
    }
    JoinLaws(folder, predicted);
  }

  /** With a relative folder a plain name never lands where the handler says,
      whether or not the folder contains the marker: either the removal pass
      makes the written path absolute, or the folder is joined in front of
      a non-empty remainder of itself once more. */
  lemma {:induction false} RelativeFolderDisagrees(folder: string, name: string, model: EnhancementModel)
    requires folder != "" && !IsAbs(folder) && PlainName(name)
    ensures OutputPath(TempPath(folder, name), folder, model) != PredictedPath(folder, name, model.Value())
  {
    var dir := DirPrefix(folder);
    var n := TaggedName(name, model.Value());
    TempPathName(folder, name, model.Value());
    RemoveTempAppend(dir, TempMarker + n);
    RemoveTempDropsPrefix(n);
    var cleaned := RemoveTemp(dir);
    RemoveTempKeepsSeparator(dir);
    var written := cleaned + RemoveTemp(n);
    JoinLaws(folder, written);
    PredictedUnderFolder(folder, name, model);
    var predicted := PredictedPath(folder, name, model.Value());
    assert predicted == dir + RemoveTemp(n);
    assert predicted[0] == folder[0];
    if !IsAbs(written) {
      assert |Join(folder, written)| == |dir| + |written| > |predicted|;
    }
  }

  /** The relative folder `temp_` is erased by the removal pass: the batch
      writes at the filesystem root while the handler reports a path under
      `temp_/`. */
  lemma {:induction false} MarkerFolderWritesAtRoot(folder: string, name: string, model: EnhancementModel)
    requires folder == TempMarker && PlainName(name)
    ensures OutputPath(TempPath(folder, name), folder, model) == "/" + RemoveTemp(TaggedName(name, model.Value()))
    ensures PredictedPath(folder, name, model.Value()) == DirPrefix(folder) + RemoveTemp(TaggedName(name, model.Value()))
  {
    var dir := DirPrefix(folder);
    MarkerDirectoryCleans(dir);
    var n := TaggedName(name, model.Value());
    TempPathName(folder, name, model.Value());
    RemoveTempAppend(dir, TempMarker + n);
    RemoveTempDropsPrefix(n);
    JoinLaws(folder, "/" + RemoveTemp(n));
    PredictedUnderFolder(folder, name, model);
  }

  /** The directory `temp_/` is cleaned down to the bare separator. */
  lemma MarkerDirectoryCleans(dir: string)
    requires dir == TempMarker + "/"
    ensures RemoveTemp(dir) == "/" && dir[|dir| - 1] == '/'
  {
    RemoveTempDropsPrefix("/");
    RemoveTempWithoutT("/");
  }

  /** The default folder "uploads": for every plain name the batch writes
      one "uploads/" deeper than the path the handler reports. */
  lemma DefaultFolderJoinsTwice(name: string, model: EnhancementModel)
    requires PlainName(name)
    ensures OutputPath(TempPath(UploadFolder, name), UploadFolder, model) ==
            "uploads/" + PredictedPath(UploadFolder, name, model.Value())
  {
    RemoveTempWithoutT("uploads/");
    assert DirPrefix(UploadFolder) == "uploads/";
    RelativeFolderJoinsTwice(UploadFolder, name, model);
  }

  /** The `temp_` prefix moves the cut of a name that is a dot and an
      extension: `.wav` has no extension (its leading dot does not count),
      while its temporary path `/out/temp_.wav` does. */
  lemma SplitDotName()
    ensures SplitExt(".wav") == (".wav", "")
    ensures SplitExt("/out/temp_.wav") == ("/out/temp_", ".wav")
  {
    var p := ".wav";
    assert RFindBelow(p, '/', 4) == RFindBelow(p, '/', 3) == RFindBelow(p, '/', 2)
        == RFindBelow(p, '/', 1) == RFindBelow(p, '/', 0) == -1;
    assert RFindBelow(p, '.', 4) == RFindBelow(p, '.', 3) == RFindBelow(p, '.', 2)
        == RFindBelow(p, '.', 1) == 0;
    assert !HasNonDot(p, 0, 0);
    var t := "/out/temp_.wav";
    assert RFindBelow(t, '/', 14) == RFindBelow(t, '/', 13) == RFindBelow(t, '/', 12)
        == RFindBelow(t, '/', 11) == RFindBelow(t, '/', 10) == RFindBelow(t, '/', 9)
        == RFindBelow(t, '/', 8) == RFindBelow(t, '/', 7) == RFindBelow(t, '/', 6)
        == RFindBelow(t, '/', 5) == 4;
    assert RFindBelow(t, '.', 14) == RFindBelow(t, '.', 13) == RFindBelow(t, '.', 12)
        == RFindBelow(t, '.', 11) == 10;
    assert t[5] != '.';
    assert HasNonDot(t, 5, 10);
    assert t[..10] == "/out/temp_";
    assert t[10..] == ".wav";
  }

  /** A folder containing the marker is rewritten by the batch's removal
      pass: `"/temp_in/"` becomes `"/in/"`, a different directory. */
  lemma StripTempFolder()
    ensures RemoveTemp("/temp_in/") == "/in/"
  {
    var d := "/temp_in/";
    assert d[..5][0] != TempMarker[0];
    assert d[1..][..5] == TempMarker;
    assert d[1..][5..] == "in/";
    RemoveTempWithoutT("in/");
  }
}
