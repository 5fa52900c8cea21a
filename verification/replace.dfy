/** `s.replace('temp_', '')`: every non-overlapping occurrence of the
    temporary-file marker is removed in one left-to-right pass. */
module Replace {
  import opened Strings

  /** The prefix the upload handler gives to each temporary copy. */
  const TempMarker: string := "temp_"

  /** One left-to-right pass: at each position either the marker starts
      there and is skipped whole, or one character is kept. */
  function RemoveTemp(s: string): string
    decreases |s|
  {
    if |s| >= 5 && s[..5] == TempMarker then RemoveTemp(s[5..])
    else if s == [] then []
    else [s[0]] + RemoveTemp(s[1..])
  }

  /** The pass only deletes: the result is no longer than the input, shorter
      by whole markers, and every character it keeps comes from the input. */
  lemma {:induction false} RemoveTempShrinks(s: string)
    ensures |RemoveTemp(s)| <= |s|
    ensures (|s| - |RemoveTemp(s)|) % 5 == 0
    ensures forall c :: c in RemoveTemp(s) ==> c in s
    decreases |s|
  {
    if |s| >= 5 && s[..5] == TempMarker {
      RemoveTempShrinks(s[5..]);
    } else if s != [] {
      RemoveTempShrinks(s[1..]);
    }
  }

  /** Without a marker at the front, the marker occurs in `s` exactly when it
      occurs in its tail. */
  lemma ContainsInTail(s: string)
    requires |s| > 0 && !OccursAt(s, TempMarker, 0)
    ensures Contains(s, TempMarker) <==> Contains(s[1..], TempMarker)
  {
    if Contains(s, TempMarker) {
      var i :| 0 <= i <= |s| - 5 && OccursAt(s, TempMarker, i);
      assert s[1..][i - 1..i - 1 + 5] == s[i..i + 5];
      assert OccursAt(s[1..], TempMarker, i - 1);
    }
    if Contains(s[1..], TempMarker) {
      var i :| 0 <= i <= |s[1..]| - 5 && OccursAt(s[1..], TempMarker, i);
      assert s[1..][i..i + 5] == s[i + 1..i + 1 + 5];
      assert OccursAt(s, TempMarker, i + 1);
    }
  }

  /** The pass changes a string exactly when the marker occurs in it. */
  lemma {:induction false} RemoveTempFixedIff(s: string)
    ensures RemoveTemp(s) == s <==> !Contains(s, TempMarker)
    decreases |s|
  {
    if |s| >= 5 && s[..5] == TempMarker {
      assert OccursAt(s, TempMarker, 0);
      RemoveTempShrinks(s[5..]);
    } else if s != [] {
      assert !OccursAt(s, TempMarker, 0);
      RemoveTempFixedIff(s[1..]);
      ContainsInTail(s);
      assert s == [s[0]] + s[1..];
    }
  }

  /** A leading marker disappears: the temporary prefix never survives. */
  lemma RemoveTempDropsPrefix(s: string)
    ensures RemoveTemp(TempMarker + s) == RemoveTemp(s)
  {
    assert (TempMarker + s)[..5] == TempMarker;
    assert (TempMarker + s)[5..] == s;
  }

  /** A character other than `t` cannot start a marker, so it is kept. */
  lemma RemoveTempKeepsNonT(c: char, rest: string)
    requires c != 't'
    ensures RemoveTemp([c] + rest) == [c] + RemoveTemp(rest)
  {
    var s := [c] + rest;
    assert |s| >= 5 ==> s[..5][0] != TempMarker[0];
    assert s[1..] == rest;
  }

  /** `"temp__"` loses its marker and keeps the last underscore. */
  lemma RemoveTempMarkerThenUnderscore(t: string)
    requires t == TempMarker + "_"
    ensures RemoveTemp(t) == "_"
  {
    RemoveTempDropsPrefix("_");
    RemoveTempKeepsNonT('_', "");
  }

  /** The pass is not idempotent: removing one marker can splice together
      another, so a second pass may change the result again. */
  lemma RemoveTempNotIdempotent(s: string)
    requires s == "temptemp__"
    ensures RemoveTemp(s) == TempMarker
    ensures RemoveTemp(RemoveTemp(s)) != RemoveTemp(s)
  {
    var tail := s[4..];
    assert tail == TempMarker + "_";
    RemoveTempMarkerThenUnderscore(tail);
    var t3, t2, t1 := ['p'] + tail, ['m'] + (['p'] + tail), ['e'] + (['m'] + (['p'] + tail));
    RemoveTempKeepsNonT('p', tail);
    RemoveTempKeepsNonT('m', t3);
    RemoveTempKeepsNonT('e', t2);
    assert RemoveTemp(t1) == "emp_";
    assert s[1..] == t1;
    assert s[..5][4] != TempMarker[4];
    assert RemoveTemp(s) == [s[0]] + RemoveTemp(s[1..]);
    RemoveTempDropsPrefix("");
  }

  /** When `a` ends in a character that appears nowhere in the marker (a path
      separator, say), no occurrence straddles the seam, so the pass works on
      the two parts independently. */
  lemma {:induction false} RemoveTempAppend(a: string, b: string)
    requires |a| > 0 && a[|a| - 1] !in TempMarker
    ensures RemoveTemp(a + b) == RemoveTemp(a) + RemoveTemp(b)
    decreases |a|
  {
    var s := a + b;
    if |a| >= 5 && a[..5] == TempMarker {
      assert |a| > 5;
      SliceAppend(a, b, 5);
      RemoveTempAppend(a[5..], b);
    } else {
      if |a| < 5 && |s| >= 5 {
        assert s[..5][|a| - 1] == a[|a| - 1] != TempMarker[|a| - 1];
      } else if |s| >= 5 {
        assert s[..5] == a[..5];
      }
      assert RemoveTemp(s) == [s[0]] + RemoveTemp(s[1..]);
      assert RemoveTemp(a) == [a[0]] + RemoveTemp(a[1..]);
      SliceAppend(a, b, 1);
      if |a| == 1 {
        assert a[1..] == [];
      } else {
        RemoveTempAppend(a[1..], b);
      }
    }
  }

  /** Cutting a concatenation inside its left part. */
  lemma SliceAppend(a: string, b: string, k: nat)
    requires k <= |a|
    ensures (a + b)[..k] == a[..k] && (a + b)[k..] == a[k..] + b
  {
  }

  /** Without a `t` there is no marker, so nothing is removed. */
  lemma {:induction false} RemoveTempWithoutT(s: string)
    requires 't' !in s
    ensures RemoveTemp(s) == s
    decreases |s|
  {
    if s != [] {
      assert s[0] != 't';
      RemoveTempWithoutT(s[1..]);
    }
  }

  /** A pass that deletes nothing changes nothing: keeping the length means
      no marker was found. */
  lemma {:induction false} RemoveTempSameLength(s: string)
    ensures |RemoveTemp(s)| == |s| ==> RemoveTemp(s) == s
    decreases |s|
  {
    if |s| >= 5 && s[..5] == TempMarker {
      RemoveTempShrinks(s[5..]);
    } else if s != [] {
      RemoveTempSameLength(s[1..]);
      assert s == [s[0]] + s[1..];
    }
  }

  /** A string ending in a separator keeps something: the pass cannot
      consume the final `/`. */
  lemma {:induction false} RemoveTempKeepsSeparator(d: string)
    requires |d| > 0 && d[|d| - 1] == '/'
    ensures |RemoveTemp(d)| > 0
    decreases |d|
  {
    if |d| >= 5 && d[..5] == TempMarker {
      assert d[4] == '_';
      assert |d| > 5;
      assert d[5..][|d[5..]| - 1] == '/';
      RemoveTempKeepsSeparator(d[5..]);
    }
  }

  /** One step of the pass at position `i`. */
  lemma RemoveTempStep(s: string, i: nat)
    requires i < |s|
    ensures i + 5 <= |s| && s[i..i + 5] == TempMarker ==> RemoveTemp(s[i..]) == RemoveTemp(s[i + 5..])
    ensures !(i + 5 <= |s| && s[i..i + 5] == TempMarker) ==> RemoveTemp(s[i..]) == [s[i]] + RemoveTemp(s[i + 1..])
  {
    var t := s[i..];
    assert i + 5 <= |s| ==> t[..5] == s[i..i + 5];
    assert i + 5 <= |s| ==> t[5..] == s[i + 5..];
    assert t[1..] == s[i + 1..];
  }

  /** The same pass written as the scanning loop of `str.replace`. */
  method RemoveTempScan(s: string) returns (r: string)
    ensures r == RemoveTemp(s)
  {
    r := [];
    var i := 0;
    while i < |s|
      invariant 0 <= i <= |s|
      invariant r + RemoveTemp(s[i..]) == RemoveTemp(s)
    {
      RemoveTempStep(s, i);
      if i + 5 <= |s| && s[i..i + 5] == TempMarker {
        i := i + 5;
      } else {
        r := r + [s[i]];
        i := i + 1;
      }
    }
    assert s[i..] == [];
  }
}
