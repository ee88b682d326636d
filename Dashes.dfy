/** The dash-separated groups a generated key is displayed in, and their
    removal before a key is validated. */
module Dashes {
  import opened Words

  /** The text cut into groups of `spacing` characters joined by '-'; the
      last group has 1 to `spacing` characters. Spacing 0 leaves the text as
      it is. */
  function Dashed(s: string, spacing: nat): string
    decreases |s|
  {
    if spacing == 0 || |s| <= spacing then s
    else s[..spacing] + "-" + Dashed(s[spacing..], spacing)
  }

  /** `key.replace(/-/g, "")`. */
  function StripDashes(s: string): (r: string)
    ensures '-' !in r
    ensures |r| <= |s|
  {
    if s == [] then []
    else if s[0] == '-' then StripDashes(s[1..])
    else [s[0]] + StripDashes(s[1..])
  }

  lemma {:induction false} StripDashesAppend(a: string, b: string)
    ensures StripDashes(a + b) == StripDashes(a) + StripDashes(b)
    decreases |a|
  {
    if a != [] {
      assert (a + b)[1..] == a[1..] + b;
      StripDashesAppend(a[1..], b);
    } else {
      assert a + b == b;
    }
  }

  /** A text without dashes is left as it is. */
  lemma {:induction false} StripNoDashes(s: string)
    requires '-' !in s
    ensures StripDashes(s) == s
    decreases |s|
  {
    if s != [] {
      assert s == [s[0]] + s[1..];
      assert '-' !in s[1..] by {
        assert forall c :: c in s[1..] ==> c in s;
      }
      StripNoDashes(s[1..]);
    }
  }

  /** Removing the dashes undoes their insertion. */
  lemma {:induction false} StripDashed(s: string, spacing: nat)
    requires '-' !in s
    ensures StripDashes(Dashed(s, spacing)) == s
    decreases |s|
  {
    if spacing == 0 || |s| <= spacing {
      StripNoDashes(s);
    } else {
      assert s == s[..spacing] + s[spacing..];
      assert '-' !in s[..spacing] && '-' !in s[spacing..] by {
        assert forall c :: c in s[..spacing] ==> c in s;
        assert forall c :: c in s[spacing..] ==> c in s;
      }
      StripDashesAppend(s[..spacing] + "-", Dashed(s[spacing..], spacing));
      StripDashesAppend(s[..spacing], "-");
      StripNoDashes(s[..spacing]);
      StripDashed(s[spacing..], spacing);
    }
  }

  /** Each group but the last has `spacing` characters and is followed by a
      dash, so a text of n > 0 characters gains (n - 1) / spacing dashes. */
  lemma {:induction false} DashedLength(s: string, spacing: nat)
    requires spacing > 0 && |s| > 0
    ensures |Dashed(s, spacing)| == |s| + (|s| - 1) / spacing
    decreases |s|
  {
    if |s| <= spacing {
      DivModOfDecomposition(|s| - 1, spacing, 0, |s| - 1);
    } else {
      DashedLength(s[spacing..], spacing);
      DivStep(|s| - 1, spacing);
    }
  }

  /** Two texts of the same length without dashes get their dashes at the
      same places. */
  lemma {:induction false} SameDashLayout(s: string, t: string, spacing: nat)
    requires |s| == |t| && '-' !in s && '-' !in t
    ensures |Dashed(s, spacing)| == |Dashed(t, spacing)|
    ensures forall j :: 0 <= j < |Dashed(s, spacing)| ==>
              (Dashed(s, spacing)[j] == '-' <==> Dashed(t, spacing)[j] == '-')
    decreases |s|
  {
    if spacing > 0 && |s| > spacing {
      assert '-' !in s[spacing..] && '-' !in t[spacing..] by {
        assert forall c :: c in s[spacing..] ==> c in s;
        assert forall c :: c in t[spacing..] ==> c in t;
      }
      SameDashLayout(s[spacing..], t[spacing..], spacing);
      assert forall j :: 0 <= j < spacing ==> s[j] != '-' && t[j] != '-' by {
        forall j | 0 <= j < spacing
          ensures s[j] != '-' && t[j] != '-'
        {
          assert s[j] in s && t[j] in t;
        }
      }
    }
  }

  /** One pass of the insertion loop: a dash goes in after the next group. */
  lemma DashStep(s: string, c: nat, spacing: nat, done: string, ret: string, pos: nat)
    requires spacing > 0 && c + spacing < |s|
    requires ret == done + s[c..] && pos == |done| + spacing
    requires Dashed(s, spacing) == done + Dashed(s[c..], spacing)
    ensures ret[..pos] + "-" + ret[pos..] == (done + s[c..c + spacing] + "-") + s[c + spacing..]
    ensures Dashed(s, spacing) == (done + s[c..c + spacing] + "-") + Dashed(s[c + spacing..], spacing)
  {
    assert s[c..][..spacing] == s[c..c + spacing];
    assert s[c..][spacing..] == s[c + spacing..];
    assert ret[..pos] == done + s[c..c + spacing];
    assert ret[pos..] == s[c + spacing..];
  }

  /** Dash i goes in after i groups and the i dashes before it, and one more
      group still leaves characters after it. */
  lemma DashPosition(n: nat, spacing: nat, groups: int, i: nat, c: nat, d: nat)
    requires spacing > 0 && i < groups && 0 < n - groups * spacing
    requires c == i * spacing && d == c + i
    ensures c + spacing == (i + 1) * spacing && c + spacing < n
    ensures spacing + (i * spacing + i) == d + spacing
  {
    GroupStep(i, groups, spacing, n);
  }

  /** One pass of the insertion loop: dash i goes in at
      `spacing + (i * spacing + i)`, after the group that follows the i
      dashes already inserted. */
  method InsertDash(s: string, spacing: nat, groups: int, i: nat, ret: string,
                    ghost done: string, ghost c: nat)
    returns (ret': string, ghost done': string, ghost c': nat)
    requires spacing > 0 && i < groups && 0 < |s| - groups * spacing
    requires c == i * spacing && |done| == c + i
    requires ret == done + s[c..]
    requires Dashed(s, spacing) == done + Dashed(s[c..], spacing)
    ensures c' == (i + 1) * spacing && |done'| == c' + i + 1 && c' <= |s|
    ensures ret' == done' + s[c'..]
    ensures Dashed(s, spacing) == done' + Dashed(s[c'..], spacing)
  {
    var pos := spacing + (i * spacing + i);
    DashPosition(|s|, spacing, groups, i, c, |done|);
    DashStep(s, c, spacing, done, ret, pos);
    ret' := ret[..pos] + "-" + ret[pos..];
    done' := done + s[c..c + spacing] + "-";
    c' := c + spacing;
  }

  /** The dash insertion of `generate`: a text of L characters has
      trunc(L / spacing) groups, one fewer when spacing divides L, and each
      pass puts in the next dash. */
  method InsertDashes(s: string, spacing: nat) returns (ret: string)
    requires spacing > 0
    ensures ret == Dashed(s, spacing)
  {
    ret := s;
    var groups := |s| / spacing;
    if |s| % spacing == 0 {
      groups := groups - 1;
    }
    if |s| > 0 {
      DashCount(|s|, spacing, groups);
    }
    ghost var done: string := "";
    ghost var c: nat := 0;
    var i := 0;
    while i < groups
      invariant 0 <= i && (i <= groups || |s| == 0)
      invariant c == i * spacing && |done| == c + i && c <= |s|
      invariant ret == done + s[c..]
      invariant Dashed(s, spacing) == done + Dashed(s[c..], spacing)
    {
      ret, done, c := InsertDash(s, spacing, groups, i, ret, done, c);
      i := i + 1;
    }
  }
}
