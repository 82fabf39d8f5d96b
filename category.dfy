/**
 * The category normaliser inside AdminPanel.renderProducts (admin.js:227-228):
 *
 *   normalizeCategory(cat) = (cat || "").toLowerCase().replace(/\s+/g, "-")
 *
 * Characters are treated as ASCII: `toLowerCase` maps only 'A'..'Z', and
 * `\s` is space, tab, line feed, carriage return, vertical tab and form feed.
 */
module Category {
  import opened Wrappers

  /** The characters matched by the regular-expression class `\s`. */
  predicate IsSpace(c: char)
    ensures IsSpace(c) ==> c != '-' && !IsUpper(c) && c as int <= 32
  {
    c == ' ' || c == '\t' || c == '\n' || c == '\r' || c == '\U{B}' || c == '\U{C}'
  }

  predicate IsUpper(c: char)
  {
    'A' <= c <= 'Z'
  }

  /** ASCII lower-casing of one character. */
  function Lower(c: char): (d: char)
    ensures !IsUpper(d)
    ensures IsSpace(d) <==> IsSpace(c)
    ensures IsUpper(c) ==> d as int == c as int + 32
    ensures !IsUpper(c) ==> d == c
  {
    if IsUpper(c) then (c as int + 32) as char else c
  }

  /** `String.prototype.toLowerCase`, ASCII only. */
  function ToLower(s: string): (r: string)
    ensures |r| == |s|
    ensures forall i :: 0 <= i < |s| ==> r[i] == Lower(s[i])
  {
    if s == [] then [] else [Lower(s[0])] + ToLower(s[1..])
  }

  /** No character of `s` is whitespace. */
  ghost predicate NoSpace(s: string)
  {
    forall i :: 0 <= i < |s| ==> !IsSpace(s[i])
  }

  /** Every character of `s` is whitespace. */
  ghost predicate AllSpace(s: string)
  {
    forall i :: 0 <= i < |s| ==> IsSpace(s[i])
  }

  /** No character of `s` is an upper-case letter. */
  ghost predicate NoUpper(s: string)
  {
    forall i :: 0 <= i < |s| ==> !IsUpper(s[i])
  }

  /** The length of the leading run of whitespace in `s`. */
  function LeadingSpaces(s: string): (k: nat)
    ensures k <= |s|
    ensures forall i :: 0 <= i < k ==> IsSpace(s[i])
    ensures k == |s| || !IsSpace(s[k])
  {
    if s != [] && IsSpace(s[0]) then 1 + LeadingSpaces(s[1..]) else 0
  }

  /**
   * `s.replace(/\s+/g, "-")`: the regular expression is greedy and global,
   * so each maximal run of whitespace becomes one '-'.
   */
  function ReplaceSpaceRuns(s: string): (r: string)
    ensures |r| <= |s|
    decreases |s|
  {
    if s == [] then []
    else if IsSpace(s[0]) then "-" + ReplaceSpaceRuns(s[LeadingSpaces(s)..])
    else [s[0]] + ReplaceSpaceRuns(s[1..])
  }

  /** `normalizeCategory`: a missing (null or undefined) category counts as "". */
  function NormalizeCategory(cat: Option<string>): (r: string)
    ensures |r| <= (if cat.Some? then |cat.value| else 0)
    ensures r == "" <==> cat.None? || cat.value == ""
  {
    var text := if cat.Some? then cat.value else "";
    ReplaceSpaceRuns(ToLower(text))
  }

  /** The replacement leaves no whitespace and introduces no upper-case letter. */
  lemma {:induction false} ReplacedForm(s: string)
    ensures NoSpace(ReplaceSpaceRuns(s))
    ensures NoUpper(s) ==> NoUpper(ReplaceSpaceRuns(s))
    decreases |s|
  {
    if s != [] {
      if IsSpace(s[0]) {
        var rest := s[LeadingSpaces(s)..];
        ReplacedForm(rest);
        assert NoUpper(s) ==> NoUpper(rest);
      } else {
        ReplacedForm(s[1..]);
      }
    }
  }

  /** The normalised form is lower-case and holds no whitespace. */
  lemma NormalizedForm(cat: Option<string>)
    ensures NoSpace(NormalizeCategory(cat)) && NoUpper(NormalizeCategory(cat))
  {
    var text := if cat.Some? then cat.value else "";
    ReplacedForm(ToLower(text));
  }

  /** A missing category and the empty category both normalise to "". */
  lemma MissingIsEmpty()
    ensures NormalizeCategory(None) == ""
    ensures NormalizeCategory(Some("")) == ""
  {
  }

  /** Lower-casing changes nothing in a string without upper-case letters. */
  lemma ToLowerFixes(s: string)
    requires NoUpper(s)
    ensures ToLower(s) == s
  {
  }

  /** The replacement changes nothing in a string without whitespace. */
  lemma {:induction false} ReplaceFixes(s: string)
    requires NoSpace(s)
    ensures ReplaceSpaceRuns(s) == s
  {
    if s != [] {
      ReplaceFixes(s[1..]);
    }
  }

  /** Normalisation is idempotent. */
  lemma NormalizeIdempotent(cat: Option<string>)
    ensures NormalizeCategory(Some(NormalizeCategory(cat))) == NormalizeCategory(cat)
  {
    var n := NormalizeCategory(cat);
    NormalizedForm(cat);
    ToLowerFixes(n);
    ReplaceFixes(n);
  }

  /** Normalisation ignores letter case. */
  lemma NormalizeIgnoresCase(s: string)
    ensures NormalizeCategory(Some(ToLower(s))) == NormalizeCategory(Some(s))
  {
    assert NoUpper(ToLower(s));
    ToLowerFixes(ToLower(s));
  }

  /** LeadingSpaces is determined by its contract: the maximal whitespace prefix. */
  lemma LeadingSpacesAt(s: string, k: nat)
    requires k <= |s|
    requires forall i :: 0 <= i < k ==> IsSpace(s[i])
    requires k == |s| || !IsSpace(s[k])
    ensures LeadingSpaces(s) == k
  {
  }

  /** A non-empty run made only of whitespace becomes a single '-'. */
  lemma SpaceRunIsOneDash(w: string)
    requires w != [] && AllSpace(w)
    ensures ReplaceSpaceRuns(w) == "-"
  {
    LeadingSpacesAt(w, |w|);
    assert w[|w|..] == [];
  }

  /**
   * The replacement works run by run: split `s` anywhere that is not in the
   * middle of a whitespace run, and each part is rewritten on its own.
   */
  lemma {:induction false} ReplaceConcat(a: string, b: string)
    requires a == [] || b == [] || !IsSpace(a[|a| - 1]) || !IsSpace(b[0])
    ensures ReplaceSpaceRuns(a + b) == ReplaceSpaceRuns(a) + ReplaceSpaceRuns(b)
    decreases |a|
  {
    if a == [] {
      assert a + b == b;
    } else if b == [] {
      assert a + b == a;
    } else if !IsSpace(a[0]) {
      assert (a + b)[0] == a[0];
      assert (a + b)[1..] == a[1..] + b;
      ReplaceConcat(a[1..], b);
    } else {
      var k := LeadingSpaces(a);
      assert (a + b)[0] == a[0];
      if k < |a| {
        LeadingSpacesAt(a + b, k);
        assert (a + b)[k..] == a[k..] + b;
        ReplaceConcat(a[k..], b);
      } else {
        // `a` is whitespace only, so `b` starts with a non-space
        LeadingSpacesAt(a + b, |a|);
        assert (a + b)[|a|..] == b;
        assert a[|a|..] == [];
      }
    }
  }

  /**
   * The main promise of the normaliser: a maximal whitespace run between
   * two parts becomes a single '-', whatever whitespace it was made of.
   */
  lemma RunBecomesDash(a: string, w: string, b: string)
    requires w != [] && AllSpace(w)
    requires a == [] || !IsSpace(a[|a| - 1])
    requires b == [] || !IsSpace(b[0])
    ensures ReplaceSpaceRuns(a + (w + b)) == ReplaceSpaceRuns(a) + ("-" + ReplaceSpaceRuns(b))
  {
    var wb := w + b;
    assert wb[0] == w[0];
    SpaceRunIsOneDash(w);
    ReplaceConcat(w, b);
    ReplaceConcat(a, wb);
  }

  /** The example from the product catalogue: a display label and a slug agree. */
  lemma GiftCardExample()
    ensures NormalizeCategory(Some("Gift Card")) == "gift-card"
    ensures NormalizeCategory(Some("gift-card")) == "gift-card"
  {
    GiftCardLowered();
    GiftCardReplaced();
    SlugIsFixed();
  }

  lemma GiftCardLowered()
    ensures ToLower("Gift Card") == "gift" + (" " + "card")
  {
    var lowered := ToLower("Gift Card");
    assert lowered[0] == 'g' && lowered[5] == 'c';
  }

  lemma GiftCardReplaced()
    ensures ReplaceSpaceRuns("gift" + (" " + "card")) == "gift-card"
  {
    ReplaceFixes("gift");
    ReplaceFixes("card");
    RunBecomesDash("gift", " ", "card");
  }

  lemma SlugIsFixed()
    ensures NormalizeCategory(Some("gift-card")) == "gift-card"
  {
    var slug := "gift-card";
    assert NoUpper(slug) && NoSpace(slug) by {
      forall i | 0 <= i < |slug| ensures !IsUpper(slug[i]) && !IsSpace(slug[i]) {
        assert slug[i] in "gift-card";
      }
    }
    ToLowerFixes(slug);
    ReplaceFixes(slug);
  }
}
