/** The rewrite that turns a catalog column name for a count rate into the
    name of the matching Vega magnitude column (make_ast_inputs.py, the two
    `str.replace` calls in the magnitude-cut loop). */
module ColumnNames {

  /** `pat` appears in `s` at index `i`. */
  predicate OccursAt(s: string, pat: string, i: int)
  {
    0 <= i && i + |pat| <= |s| && s[i..i + |pat|] == pat
  }

  /** `pat` appears somewhere in `s`. */
  predicate Occurs(s: string, pat: string)
  {
    exists i :: 0 <= i <= |s| && OccursAt(s, pat, i)
  }

  /** Python's `s.replace(pat, rep)`: every non-overlapping occurrence of
      `pat`, found scanning from the left, is replaced by `rep`. */
  function ReplaceAll(s: string, pat: string, rep: string): string
    requires |pat| > 0
    decreases |s|
  {
    if |s| < |pat| then s
    else if s[..|pat|] == pat then rep + ReplaceAll(s[|pat|..], pat, rep)
    else [s[0]] + ReplaceAll(s[1..], pat, rep)
  }

  /** The magnitude column for a resolved alias: first every `rate` becomes
      `vega`, then every `RATE` becomes `VEGA`. Mixed case is left alone. */
  function MagnitudeColumn(alias: string): string
  {
    ReplaceAll(ReplaceAll(alias, "rate", "vega"), "RATE", "VEGA")
  }

  // ---------------------------------------------------------------------
  // Occurrences under slicing and concatenation

  lemma OccursAtShift(s: string, pat: string, k: nat, i: int)
    requires k <= |s|
    ensures OccursAt(s[k..], pat, i) ==> OccursAt(s, pat, i + k)
  {
  }

  lemma OccursAtConcat(a: string, b: string, pat: string, i: int)
    requires i >= |a|
    ensures OccursAt(a + b, pat, i) ==> OccursAt(b, pat, i - |a|)
  {
  }

  lemma AbsentFromSuffix(s: string, pat: string, k: nat)
    requires k <= |s| && !Occurs(s, pat)
    ensures !Occurs(s[k..], pat)
  {
    forall i ensures !OccursAt(s[k..], pat, i) {
      OccursAtShift(s, pat, k, i);
    }
  }

  // ---------------------------------------------------------------------
  // Properties of ReplaceAll

  /** Replacing a same-length pattern keeps the length of the name. */
  lemma {:induction false} ReplaceAllLength(s: string, pat: string, rep: string)
    requires |pat| > 0 && |rep| == |pat|
    ensures |ReplaceAll(s, pat, rep)| == |s|
    decreases |s|
  {
    if |s| < |pat| {
    } else if s[..|pat|] == pat {
      ReplaceAllLength(s[|pat|..], pat, rep);
    } else {
      ReplaceAllLength(s[1..], pat, rep);
    }
  }

  /** A name in which the pattern does not appear is returned unchanged. */
  lemma {:induction false} ReplaceAllNoMatch(s: string, pat: string, rep: string)
    requires |pat| > 0 && !Occurs(s, pat)
    ensures ReplaceAll(s, pat, rep) == s
    decreases |s|
  {
    if |s| >= |pat| {
      assert !OccursAt(s, pat, 0);
      AbsentFromSuffix(s, pat, 1);
      ReplaceAllNoMatch(s[1..], pat, rep);
    }
  }

  /** At the first occurrence the pattern becomes the replacement; what
      comes before it is kept and what follows is rewritten in turn. */
  lemma {:induction false} ReplaceAllFirstOccurrence(a: string, pat: string, rep: string, b: string)
    requires |pat| > 0
    requires forall i :: 0 <= i < |a| ==> !OccursAt(a + pat + b, pat, i)
    ensures ReplaceAll(a + pat + b, pat, rep) == a + rep + ReplaceAll(b, pat, rep)
    decreases |a|
  {
    var s := a + pat + b;
    if a == [] {
      assert s[..|pat|] == pat;
      assert s[|pat|..] == b;
    } else {
      var t := a[1..] + pat + b;
      assert s == [a[0]] + t;
      assert s[1..] == t;
      assert !OccursAt(s, pat, 0);
      assert s[..|pat|] != pat by {
        assert s[..|pat|] == s[0..|pat|];
      }
      assert ReplaceAll(s, pat, rep) == [a[0]] + ReplaceAll(t, pat, rep);
      forall i | 0 <= i < |a| - 1 ensures !OccursAt(t, pat, i) {
        OccursAtShift(s, pat, 1, i);
      }
      ReplaceAllFirstOccurrence(a[1..], pat, rep, b);
      assert a == [a[0]] + a[1..];
    }
  }

  /** A name in which the pattern appears is changed, when the replacement
      has the same length and differs from the pattern. */
  lemma {:induction false} ReplaceAllChanges(s: string, pat: string, rep: string)
    requires |pat| > 0 && |rep| == |pat| && rep != pat && Occurs(s, pat)
    ensures ReplaceAll(s, pat, rep) != s
    decreases |s|
  {
    var i :| 0 <= i <= |s| && OccursAt(s, pat, i);
    assert i + |pat| <= |s|;
    if s[..|pat|] == pat {
      var r := ReplaceAll(s, pat, rep);
      assert r[..|rep|] == rep;
      assert s[..|pat|] == pat;
    } else {
      assert !OccursAt(s, pat, 0) by {
        assert s[0..|pat|] == s[..|pat|];
      }
      assert 1 <= i && i + |pat| <= |s|;
      assert s[1..][i - 1..i - 1 + |pat|] == s[i..i + |pat|];
      assert OccursAt(s[1..], pat, i - 1);
      ReplaceAllChanges(s[1..], pat, rep);
      assert ReplaceAll(s, pat, rep) == [s[0]] + ReplaceAll(s[1..], pat, rep);
      assert s == [s[0]] + s[1..];
    }
  }

  /** If the result of the replacement begins with `w`, and the replacement
      cannot start inside `w`, then the original name already began with `w`. */
  lemma {:induction false} ReplaceAllPrefix(t: string, pat: string, rep: string, w: string)
    requires |pat| > 0 && |rep| > 0 && rep[0] !in w
    ensures (|ReplaceAll(t, pat, rep)| >= |w| && ReplaceAll(t, pat, rep)[..|w|] == w)
            ==> |t| >= |w| && t[..|w|] == w
    decreases |t|
  {
    if |w| > 0 && |t| >= |pat| && t[..|pat|] != pat {
      var r1 := ReplaceAll(t[1..], pat, rep);
      assert ReplaceAll(t, pat, rep) == [t[0]] + r1;
      ReplaceAllPrefix(t[1..], pat, rep, w[1..]);
      if |ReplaceAll(t, pat, rep)| >= |w| && ReplaceAll(t, pat, rep)[..|w|] == w {
        assert ReplaceAll(t, pat, rep)[..|w|] == [t[0]] + r1[..|w| - 1];
        assert w == [w[0]] + w[1..];
        assert r1[..|w| - 1] == w[1..];
        assert t[..|w|] == [t[0]] + t[1..][..|w| - 1];
      }
    } else if |w| > 0 && |t| >= |pat| {
      assert ReplaceAll(t, pat, rep)[0] == rep[0];
    }
  }

  /** After the replacement the pattern no longer appears, provided the
      replacement cannot create a new occurrence across a seam. */
  lemma {:induction false} ReplaceAllRemoves(s: string, pat: string, rep: string)
    requires |pat| > 0 && |rep| > 0
    requires pat[0] !in rep && rep[0] !in pat[1..]
    ensures !Occurs(ReplaceAll(s, pat, rep), pat)
    decreases |s|
  {
    var r := ReplaceAll(s, pat, rep);
    if |s| < |pat| {
      assert r == s;
    } else if s[..|pat|] == pat {
      var r1 := ReplaceAll(s[|pat|..], pat, rep);
      ReplaceAllRemoves(s[|pat|..], pat, rep);
      assert r == rep + r1;
      forall i ensures !OccursAt(r, pat, i) {
        if 0 <= i < |rep| {
          assert r[i] == rep[i];
        } else if i >= |rep| {
          OccursAtConcat(rep, r1, pat, i);
        }
      }
    } else {
      var r1 := ReplaceAll(s[1..], pat, rep);
      ReplaceAllRemoves(s[1..], pat, rep);
      assert r == [s[0]] + r1;
      forall i ensures !OccursAt(r, pat, i) {
        if i == 0 {
          ReplaceAllPrefix(s[1..], pat, rep, pat[1..]);
          assert s[..|pat|] == [s[0]] + s[1..][..|pat| - 1];
          if |r| >= |pat| {
            assert r[..|pat|] == [s[0]] + r1[..|pat| - 1];
            assert pat == [pat[0]] + pat[1..];
          }
        } else if i > 0 {
          OccursAtConcat([s[0]], r1, pat, i);
        }
      }
    }
  }

  /** The replacement does not create an occurrence of another pattern `q`
      that shares no character with the replacement text. */
  lemma {:induction false} ReplaceAllPreservesAbsence(s: string, pat: string, rep: string, q: string)
    requires |pat| > 0 && |rep| > 0 && |q| > 0
    requires forall j :: 0 <= j < |rep| ==> rep[j] !in q
    ensures !Occurs(s, q) ==> !Occurs(ReplaceAll(s, pat, rep), q)
    decreases |s|
  {
    if !Occurs(s, q) {
      var r := ReplaceAll(s, pat, rep);
      if |s| < |pat| {
        assert r == s;
      } else if s[..|pat|] == pat {
        var r1 := ReplaceAll(s[|pat|..], pat, rep);
        AbsentFromSuffix(s, q, |pat|);
        ReplaceAllPreservesAbsence(s[|pat|..], pat, rep, q);
        assert r == rep + r1;
        forall i ensures !OccursAt(r, q, i) {
          if 0 <= i < |rep| {
            assert r[i] == rep[i];
            assert i + |q| <= |r| ==> r[i..i + |q|][0] == r[i];
          } else if i >= |rep| {
            OccursAtConcat(rep, r1, q, i);
          }
        }
      } else {
        var r1 := ReplaceAll(s[1..], pat, rep);
        AbsentFromSuffix(s, q, 1);
        ReplaceAllPreservesAbsence(s[1..], pat, rep, q);
        assert r == [s[0]] + r1;
        forall i ensures !OccursAt(r, q, i) {
          if i == 0 {
            ReplaceAllPrefix(s[1..], pat, rep, q[1..]);
            assert !OccursAt(s, q, 0);
            if |r| >= |q| && |s| >= |q| {
              assert r[..|q|] == [s[0]] + r1[..|q| - 1];
              assert s[..|q|] == [s[0]] + s[1..][..|q| - 1];
              assert q == [q[0]] + q[1..];
            }
          } else if i > 0 {
            OccursAtConcat([s[0]], r1, q, i);
          }
        }
      }
    }
  }

  // ---------------------------------------------------------------------
  // Properties of the column-name rewrite

  /** The rewrite keeps the length of the name, and neither `rate` nor
      `RATE` survives it. */
  lemma MagnitudeColumnClean(alias: string)
    ensures |MagnitudeColumn(alias)| == |alias|
    ensures !Occurs(MagnitudeColumn(alias), "rate")
    ensures !Occurs(MagnitudeColumn(alias), "RATE")
  {
    var once := ReplaceAll(alias, "rate", "vega");
    ReplaceAllLength(alias, "rate", "vega");
    ReplaceAllLength(once, "RATE", "VEGA");
    ReplaceAllRemoves(alias, "rate", "vega");
    ReplaceAllPreservesAbsence(once, "RATE", "VEGA", "rate");
    ReplaceAllRemoves(once, "RATE", "VEGA");
  }

  /** The rewrite leaves a name unchanged exactly when it contains neither
      `rate` nor `RATE`. */
  lemma MagnitudeColumnUnchangedIff(alias: string)
    ensures MagnitudeColumn(alias) == alias
            <==> !Occurs(alias, "rate") && !Occurs(alias, "RATE")
  {
    var once := ReplaceAll(alias, "rate", "vega");
    if !Occurs(alias, "rate") {
      ReplaceAllNoMatch(alias, "rate", "vega");
      if !Occurs(alias, "RATE") {
        ReplaceAllNoMatch(once, "RATE", "VEGA");
      } else {
        ReplaceAllChanges(once, "RATE", "VEGA");
      }
    } else {
      ReplaceAllRemoves(alias, "rate", "vega");
      ReplaceAllPreservesAbsence(once, "RATE", "VEGA", "rate");
    }
  }

  /** A prefix in which the pattern's first character never appears is
      copied through unchanged. */
  lemma {:induction false} ReplaceAllSkip(a: string, b: string, pat: string, rep: string)
    requires |pat| > 0 && pat[0] !in a
    ensures ReplaceAll(a + b, pat, rep) == a + ReplaceAll(b, pat, rep)
    decreases |a|
  {
    if |a| > 0 {
      var s := a + b;
      assert s[1..] == a[1..] + b;
      ReplaceAllSkip(a[1..], b, pat, rep);
      if |s| >= |pat| {
        assert s[..|pat|][0] == a[0];
      }
      assert a == [a[0]] + a[1..];
    } else {
      assert a + b == b;
    }
  }

  /** Names as they occur in survey catalogs. The name is a parameter
      fixed by the precondition: stated on the literal directly, the
      verifier unfolds the rewrite of the literal without bound. */
  lemma MagnitudeColumnUpper(name: string)
    requires name == "F475W_RATE"
    ensures MagnitudeColumn(name) == "F475W_VEGA"
  {
    ReplaceAllSkip(name, "", "rate", "vega");
    assert name + "" == name;
    ReplaceAllSkip("F475W_", "RATE", "RATE", "VEGA");
    assert "F475W_" + "RATE" == name;
    assert ReplaceAll("RATE", "RATE", "VEGA") == "VEGA";
  }

  lemma MagnitudeColumnLower(name: string)
    requires name == "f814w_rate"
    ensures MagnitudeColumn(name) == "f814w_vega"
  {
    ReplaceAllSkip("f814w_", "rate", "rate", "vega");
    assert "f814w_" + "rate" == name;
    assert ReplaceAll("rate", "rate", "vega") == "vega";
    var once := ReplaceAll(name, "rate", "vega");
    assert once == "f814w_" + "vega";
    ReplaceAllSkip(once, "", "RATE", "VEGA");
    assert once + "" == once;
  }

  lemma MagnitudeColumnMixed(name: string)
    requires name == "F475W_Rate"
    ensures MagnitudeColumn(name) == name
  {
    ReplaceAllSkip(name, "", "rate", "vega");
    assert name + "" == name;
    ReplaceAllSkip("F475W_", "Rate", "RATE", "VEGA");
    assert "F475W_" + "Rate" == name;
    assert "Rate"[1] == 'a';
    assert ReplaceAll("Rate", "RATE", "VEGA") == "Rate";
  }
}
