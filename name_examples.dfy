/**
 * A worked example of the pre-save name normalisation of
 * models/categoryModel.ts, derived from the general lemmas about runs of white
 * space rather than by evaluation.
 */
module NameExamples {
  import opened Text
  import opened CategoryModel

  /** The stored name, from the lower-cased rest and its collapse. */
  lemma NormalizeFrom(name: string, lowerRest: string, tail: string)
    requires |name| > 0 && LowerAll(name[1..]) == lowerRest && CollapseSpaceRuns(lowerRest) == tail
    ensures NormalizeName(name) == [ToUpper(name[0])] + tail
  {
  }

  /**
   * A name with leading, inner and trailing white space: the inner run of three
   * spaces becomes one, the single spaces stay, and nothing is trimmed.
   */
  lemma NormalizeExample()
    ensures NormalizeName("  wIRELESS   mice ") == "  wireless mice "
  {
    assert [' '] + " wireless mice " == "  wireless mice ";
    CollapseExample();
    LowerExample();
    assert "  wIRELESS   mice "[0] == ' ';
    assert ToUpper(' ') == ' ';
    NormalizeFrom("  wIRELESS   mice ", " wireless   mice ", " wireless mice ");
  }

  lemma LowerExample()
    ensures LowerAll("  wIRELESS   mice "[1..]) == " wireless   mice "
  {
    assert "  wIRELESS   mice "[1..] == " wIRELESS   mice ";
  }

  lemma CollapseExample()
    ensures CollapseSpaceRuns(" wireless   mice ") == " wireless mice "
  {
    InnerRunExample();
    SingleOfCollapsed(' ', "wireless" + "   " + "mice ", "wireless" + " " + "mice ");
    assert [' '] + ("wireless" + "   " + "mice ") == " wireless   mice ";
    assert [' '] + ("wireless" + " " + "mice ") == " wireless mice ";
  }

  lemma InnerRunExample()
    ensures CollapseSpaceRuns("wireless" + "   " + "mice ") == "wireless" + " " + "mice "
  {
    InnerRun("wireless", "   ", "mice ");
  }

  lemma InnerRun(a: string, w: string, b: string)
    requires a == "wireless" && w == "   " && b == "mice "
    ensures CollapseSpaceRuns(a + w + b) == a + " " + b
  {
    assert CollapseSpaceRuns(a) == a by { WirelessFixed(); }
    assert CollapseSpaceRuns(b) == b by { MiceFixed(); }
    assert !IsSpace(a[|a| - 1]) && !IsSpace(b[0]);
    assert |w| >= 2 && forall i :: 0 <= i < |w| ==> IsSpace(w[i]);
    RunBetweenFixed(a, w, b);
  }

  lemma RunBetweenFixed(a: string, w: string, b: string)
    requires a == [] || !IsSpace(a[|a| - 1])
    requires |w| >= 2 && forall i :: 0 <= i < |w| ==> IsSpace(w[i])
    requires b == [] || !IsSpace(b[0])
    requires CollapseSpaceRuns(a) == a && CollapseSpaceRuns(b) == b
    ensures CollapseSpaceRuns(a + w + b) == a + " " + b
  {
    CollapseRunBetween(a, w, b);
  }

  lemma SingleOfCollapsed(c: char, b: string, r: string)
    requires IsSpace(c) && (b == [] || !IsSpace(b[0])) && CollapseSpaceRuns(b) == r
    ensures CollapseSpaceRuns([c] + b) == [c] + r
  {
    CollapseSingle(c, b);
  }

  lemma WirelessFixed()
    ensures CollapseSpaceRuns("wireless") == "wireless"
  {
    LettersFixed("wireless");
  }

  lemma MiceFixed()
    ensures CollapseSpaceRuns("mice ") == "mice "
  {
    var s := "mice ";
    assert s == "mice" + " ";
    assert forall i :: 0 <= i < |s| - 1 ==> IsAsciiLower(s[i]);
    CollapseFixpoint(s);
  }

  /** A run of lower-case letters has no white space to collapse. */
  lemma LettersFixed(s: string)
    requires forall i :: 0 <= i < |s| ==> IsAsciiLower(s[i])
    ensures CollapseSpaceRuns(s) == s
  {
    CollapseFixpoint(s);
  }
}
