/**
 * The skills section: each category key of the skills record becomes a card
 * headed by a label, `key.replace(/([A-Z])/g, ' $1').trim()`, listing the
 * category's skills in order.
 */
module Skills {
  import opened JsBuiltins
  import PortfolioData

  /** `key.replace(/([A-Z])/g, ' $1')`: a space before every ASCII capital. */
  function SpaceBeforeCapitals(key: string): (r: string)
    ensures |r| >= |key|
  {
    if key == [] then []
    else (if IsAsciiUpper(key[0]) then [' ', key[0]] else [key[0]]) + SpaceBeforeCapitals(key[1..])
  }

  /** After spacing, every ASCII capital has a space right before it. */
  predicate SpaceBeforeEachCapital(r: string) {
    forall j | 0 <= j < |r| && IsAsciiUpper(r[j]) :: j > 0 && r[j - 1] == ' '
  }

  lemma {:induction false} SpacingPutsSpaceBeforeCapitals(key: string)
    ensures SpaceBeforeEachCapital(SpaceBeforeCapitals(key))
  {
    if key != [] {
      var head := if IsAsciiUpper(key[0]) then [' ', key[0]] else [key[0]];
      var rest := SpaceBeforeCapitals(key[1..]);
      var r := head + rest;
      assert SpaceBeforeCapitals(key) == r;
      SpacingPutsSpaceBeforeCapitals(key[1..]);
      forall j | 0 <= j < |r| && IsAsciiUpper(r[j]) ensures j > 0 && r[j - 1] == ' ' {
        if j >= |head| {
          assert r[j] == rest[j - |head|];
          assert r[j - 1] == rest[j - |head| - 1];
        }
      }
    }
  }

  /** The card heading of a category key. */
  function CategoryLabel(key: string): (r: string)
    ensures r == [] || (!IsWhitespace(r[0]) && !IsWhitespace(r[|r| - 1]))
  {
    Trim(SpaceBeforeCapitals(key))
  }

  /** Inside a label, every ASCII capital follows a space; only a leading
      capital does not, its space having been trimmed. */
  lemma CapitalsFollowSpaces(key: string)
    ensures var r := CategoryLabel(key);
      forall i | 0 < i < |r| && IsAsciiUpper(r[i]) :: r[i - 1] == ' '
  {
    var x := SpaceBeforeCapitals(key);
    SpacingPutsSpaceBeforeCapitals(key);
    SliceKeepsSpaceBeforeCapitals(x, LeadingWhitespace(x), CategoryLabel(key));
  }

  lemma SliceKeepsSpaceBeforeCapitals(x: string, lo: nat, r: string)
    requires SpaceBeforeEachCapital(x)
    requires lo + |r| <= |x| && r == x[lo..lo + |r|]
    ensures forall i | 0 < i < |r| && IsAsciiUpper(r[i]) :: r[i - 1] == ' '
  {
    forall i | 0 < i < |r| && IsAsciiUpper(r[i]) ensures r[i - 1] == ' ' {
      assert r[i] == x[lo + i] && r[i - 1] == x[lo + i - 1];
    }
  }

  /** `s` with its spaces deleted. */
  function RemoveSpaces(s: string): string {
    if s == [] then [] else (if s[0] == ' ' then [] else [s[0]]) + RemoveSpaces(s[1..])
  }

  lemma {:induction false} RemoveSpacesAppend(a: string, b: string)
    ensures RemoveSpaces(a + b) == RemoveSpaces(a) + RemoveSpaces(b)
  {
    if a == [] {
      assert a + b == b;
    } else {
      assert (a + b)[1..] == a[1..] + b;
      RemoveSpacesAppend(a[1..], b);
    }
  }


  lemma {:induction false} RemoveSpacesUndoesSpacing(key: string)
    requires ' ' !in key
    ensures RemoveSpaces(SpaceBeforeCapitals(key)) == key
  {
    if key != [] {
      var head := if IsAsciiUpper(key[0]) then [' ', key[0]] else [key[0]];
      var rest := SpaceBeforeCapitals(key[1..]);
      assert ' ' !in key[1..];
      RemoveSpacesUndoesSpacing(key[1..]);
      RemoveSpacesAppend(head, rest);
      assert RemoveSpaces(head) == [key[0]] by {
        if |head| == 2 { assert head[1..] == [key[0]]; }
      }
      assert key == [key[0]] + key[1..];
    }
  }

  /** The only whitespace `s` holds is the space character. */
  predicate SpaceIsOnlyWhitespace(s: string) {
    forall i | 0 <= i < |s| :: IsWhitespace(s[i]) ==> s[i] == ' '
  }

  /** Spacing a key without whitespace introduces no whitespace but the space. */
  lemma {:induction false} SpacingOnlyAddsSpaces(key: string)
    requires NoWhitespace(key)
    ensures SpaceIsOnlyWhitespace(SpaceBeforeCapitals(key))
  {
    if key != [] {
      SpacingOnlyAddsSpaces(key[1..]);
      var head := if IsAsciiUpper(key[0]) then [' ', key[0]] else [key[0]];
      var rest := SpaceBeforeCapitals(key[1..]);
      assert SpaceBeforeCapitals(key) == head + rest;
      assert !IsWhitespace(key[0]);
      assert SpaceIsOnlyWhitespace(head);
      assert forall i | |head| <= i < |head + rest| :: (head + rest)[i] == rest[i - |head|];
    }
  }

  lemma {:induction false} RemoveSpacesOfBlank(s: string)
    requires AllWhitespace(s) && SpaceIsOnlyWhitespace(s)
    ensures RemoveSpaces(s) == []
  {
    if s != [] {
      assert IsWhitespace(s[0]);
      assert s[0] == ' ';
      assert AllWhitespace(s[1..]) && SpaceIsOnlyWhitespace(s[1..]) by {
        assert forall i | 0 <= i < |s| - 1 :: s[1..][i] == s[i + 1];
      }
      RemoveSpacesOfBlank(s[1..]);
    }
  }

  lemma RemoveSpacesOfSandwich(x: string, front: string, r: string, back: string)
    requires x == front + r + back
    requires RemoveSpaces(front) == [] && RemoveSpaces(back) == []
    ensures RemoveSpaces(r) == RemoveSpaces(x)
  {
    RemoveSpacesAppend(front + r, back);
    RemoveSpacesAppend(front, r);
  }

  /** A slice of a string whose only whitespace is the space has the same property. */
  lemma SliceKeepsSpaceOnly(x: string, lo: nat, hi: nat)
    requires lo <= hi <= |x| && SpaceIsOnlyWhitespace(x)
    ensures SpaceIsOnlyWhitespace(x[lo..hi])
  {
    assert forall i | 0 <= i < hi - lo :: x[lo..hi][i] == x[lo + i];
  }

  /** Trimming only strips characters that `RemoveSpaces` deletes anyway when
      the only whitespace is the space. */
  lemma RemoveSpacesIgnoresTrim(x: string)
    requires SpaceIsOnlyWhitespace(x)
    ensures RemoveSpaces(Trim(x)) == RemoveSpaces(x)
  {
    var lo, hi := TrimBounds(x);
    SliceKeepsSpaceOnly(x, 0, lo);
    SliceKeepsSpaceOnly(x, hi, |x|);
    RemoveSpacesOfBlank(x[0..lo]);
    RemoveSpacesOfBlank(x[hi..|x|]);
    RemoveSpacesOfSandwich(x, x[0..lo], x[lo..hi], x[hi..|x|]);
  }

  /** `Trim(x)` is the middle of a split of `x` into three slices, the outer two all whitespace. */
  lemma TrimBounds(x: string) returns (lo: nat, hi: nat)
    ensures lo <= hi <= |x| && Trim(x) == x[lo..hi]
    ensures x == x[0..lo] + x[lo..hi] + x[hi..|x|]
    ensures AllWhitespace(x[0..lo]) && AllWhitespace(x[hi..|x|])
  {
    lo := LeadingWhitespace(x);
    hi := lo + |Trim(x)|;
    assert x[..lo] == x[0..lo] && x[hi..] == x[hi..|x|];
  }

  /** For a key without whitespace, deleting the spaces from its label gives the key back. */
  lemma LabelRemovesToKey(key: string)
    requires NoWhitespace(key)
    ensures RemoveSpaces(CategoryLabel(key)) == key
  {
    assert ' ' !in key by {
      assert IsWhitespace(' ');
      forall i | 0 <= i < |key| ensures key[i] != ' ' {
        assert !IsWhitespace(key[i]);
      }
    }
    SpacingOnlyAddsSpaces(key);
    RemoveSpacesIgnoresTrim(SpaceBeforeCapitals(key));
    RemoveSpacesUndoesSpacing(key);
  }

  lemma {:induction false} NoCapitalsNoSpacing(key: string)
    requires forall i | 0 <= i < |key| :: !IsAsciiUpper(key[i])
    ensures SpaceBeforeCapitals(key) == key
  {
    if key != [] {
      NoCapitalsNoSpacing(key[1..]);
      assert key == [key[0]] + key[1..];
    }
  }

  /** A key without capitals and without whitespace at its ends, such as
      `frontend`, is its own label. */
  lemma LowerCaseKeyUnchanged(key: string)
    requires forall i | 0 <= i < |key| :: !IsAsciiUpper(key[i])
    requires key == [] || (!IsWhitespace(key[0]) && !IsWhitespace(key[|key| - 1]))
    ensures CategoryLabel(key) == key
  {
    NoCapitalsNoSpacing(key);
    TrimOfTrimmed(key);
  }

  lemma {:induction false} SpacingAppend(a: string, b: string)
    ensures SpaceBeforeCapitals(a + b) == SpaceBeforeCapitals(a) + SpaceBeforeCapitals(b)
  {
    if a == [] {
      assert a + b == b;
    } else {
      assert (a + b)[1..] == a[1..] + b;
      SpacingAppend(a[1..], b);
    }
  }

  /** A capitalised word gains one space in front. */
  lemma SpacingCapitalised(w: string)
    requires w != [] && IsAsciiUpper(w[0])
    requires forall i | 1 <= i < |w| :: !IsAsciiUpper(w[i])
    ensures SpaceBeforeCapitals(w) == [' '] + w
  {
    NoCapitalsNoSpacing(w[1..]);
  }

  lemma SpacingCloudDev()
    ensures SpaceBeforeCapitals("cloudDev") == "cloud Dev"
  {
    NoCapitalsNoSpacing("cloud");
    SpacingCapitalised("Dev");
    SpacingAppend("cloud", "Dev");
    assert "cloud" + "Dev" == "cloudDev";
    assert "cloud" + " Dev" == "cloud Dev";
  }

  lemma SpacingCloudDevOps()
    ensures SpaceBeforeCapitals("cloudDevOps") == "cloud Dev Ops"
  {
    SpacingCloudDev();
    SpacingCapitalised("Ops");
    SpacingAppend("cloudDev", "Ops");
    assert "cloudDev" + "Ops" == "cloudDevOps";
    assert "cloud Dev" + " Ops" == "cloud Dev Ops";
  }

  /** `cloudDevOps` becomes `cloud Dev Ops`. */
  lemma CloudDevOpsLabel()
    ensures CategoryLabel("cloudDevOps") == "cloud Dev Ops"
  {
    SpacingCloudDevOps();
    TrimOfTrimmed("cloud Dev Ops");
  }

  /** One rendered skills card. */
  datatype SkillCard = SkillCard(heading: string, skills: seq<string>)

  /** `Object.entries(skills).map(...)`: one card per category, in entry
      order, each listing all of its skills in order. */
  function SkillCards(entries: seq<(string, seq<string>)>): (r: seq<SkillCard>)
    ensures |r| == |entries|
    ensures forall i | 0 <= i < |entries| :: r[i].heading == CategoryLabel(entries[i].0) && r[i].skills == entries[i].1
  {
    seq(|entries|, i requires 0 <= i < |entries| => SkillCard(CategoryLabel(entries[i].0), entries[i].1))
  }

  /** The six cards of the portfolio, in the record's order. */
  lemma PortfolioSkillLabels()
    ensures |SkillCards(PortfolioData.Skills)| == 6
    ensures SkillCards(PortfolioData.Skills)[0].heading == "frontend"
    ensures SkillCards(PortfolioData.Skills)[3].heading == "cloud Dev Ops"
  {
    var entries := PortfolioData.Skills;
    assert entries[0].0 == "frontend" && entries[3].0 == "cloudDevOps";
    LowerCaseKeyUnchanged("frontend");
    CloudDevOpsLabel();
  }
}
