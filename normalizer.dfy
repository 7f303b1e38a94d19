/** The label normalizer: an effect cell is lower-cased, then looked up as a
    whole in a fixed synonym table; a value that is not a key passes through
    lower-cased. */
module Normalizer {
  import opened Text
  import opened Records

  /** The synonym table, keyed by lower-case text. */
  const Synonyms: map<string, string> := map[
    "irritation effects" := "Irritation Effects",
    "specialized effects" := "Specialized Effects",
    "specified effects" := "Specialized Effects",
    "systemic toxicity" := "Systemic Toxicity",
    "safety approvals" := "Safety Approvals",
    "allergic reaction" := "Allergic Reaction"
  ]

  /** The canonical vocabulary: the values of the table. */
  const Canonical: set<string> := {
    "Irritation Effects", "Specialized Effects", "Systemic Toxicity",
    "Safety Approvals", "Allergic Reaction"
  }

  /** `Series.str.lower()` followed by `Series.replace(table)`. */
  function Normalize(raw: string): (r: string)
    ensures Lower(raw) in Synonyms ==> r == Synonyms[Lower(raw)] && r in Canonical
    ensures Lower(raw) !in Synonyms ==> r == Lower(raw)
  {
    var low := Lower(raw);
    if low in Synonyms then Synonyms[low] else low
  }

  /** Each canonical value lower-cases to a key of the table that maps back to it. */
  lemma CanonicalIsFixed(c: string)
    requires c in Canonical
    ensures Lower(c) in Synonyms && Synonyms[Lower(c)] == c
  {
    if c == "Irritation Effects" {
      LowerIrritation();
    } else if c == "Specialized Effects" {
      LowerSpecialized();
    } else if c == "Systemic Toxicity" {
      LowerSystemic();
    } else if c == "Safety Approvals" {
      LowerSafety();
    } else {
      LowerAllergic();
    }
  }

  lemma LowerIrritation()
    ensures Lower("Irritation Effects") == "irritation effects"
  {
  }

  lemma LowerSpecialized()
    ensures Lower("Specialized Effects") == "specialized effects"
  {
  }

  lemma LowerSystemic()
    ensures Lower("Systemic Toxicity") == "systemic toxicity"
  {
  }

  lemma LowerSafety()
    ensures Lower("Safety Approvals") == "safety approvals"
  {
  }

  lemma LowerAllergic()
    ensures Lower("Allergic Reaction") == "allergic reaction"
  {
  }

  /** Normalizing is idempotent: a canonical value and a lower-cased pass-through
      value both normalize to themselves. */
  lemma NormalizeIdempotent(raw: string)
    ensures Normalize(Normalize(raw)) == Normalize(raw)
  {
    var low := Lower(raw);
    if low in Synonyms {
      CanonicalIsFixed(Synonyms[low]);
    } else {
      LowerIdempotent(raw);
    }
  }

  /** The typo "specified effects" is read as the specialized effects. */
  lemma NormalizeTypo()
    ensures Normalize("specified effects") == "Specialized Effects"
  {
    assert Lower("specified effects") == "specified effects";
  }

  /** Case is ignored: a value and its lower-cased spelling normalize alike. */
  lemma NormalizeIgnoresCase(raw: string)
    ensures Normalize(raw) == Normalize(Lower(raw))
  {
    LowerIdempotent(raw);
  }

  /** In particular an upper-case spelling maps to the canonical value. */
  lemma NormalizeUpperCase()
    ensures Normalize("SAFETY APPROVALS") == "Safety Approvals"
  {
    NormalizeIgnoresCase("SAFETY APPROVALS");
    assert Lower("SAFETY APPROVALS") == "safety approvals";
  }

  /** A value outside the table passes through lower-cased. */
  lemma NormalizePassThrough()
    ensures Normalize("Mild Effects") == "mild effects"
  {
    assert Lower("Mild Effects") == "mild effects";
  }

  /** Normalizes the effect cell of every row and leaves every other cell as it is. */
  function NormalizeRows(rows: seq<Record>): (r: seq<Record>)
    ensures |r| == |rows|
    ensures forall i :: 0 <= i < |rows| ==>
      r[i] == rows[i].(effect := Normalize(rows[i].effect))
  {
    seq(|rows|, i requires 0 <= i < |rows| => rows[i].(effect := Normalize(rows[i].effect)))
  }

  /** Every effect of a normalized sheet is a fixed point of the normalizer, so
      normalizing a second time changes nothing; an effect is either canonical
      or lower-case. */
  lemma NormalizeRowsIdempotent(rows: seq<Record>)
    ensures NormalizeRows(NormalizeRows(rows)) == NormalizeRows(rows)
    ensures forall i :: 0 <= i < |rows| ==>
      NormalizeRows(rows)[i].effect in Canonical || Lower(NormalizeRows(rows)[i].effect) == NormalizeRows(rows)[i].effect
  {
    var n := NormalizeRows(rows);
    forall i | 0 <= i < |rows|
      ensures Normalize(n[i].effect) == n[i].effect
      ensures n[i].effect in Canonical || Lower(n[i].effect) == n[i].effect
    {
      NormalizeIdempotent(rows[i].effect);
      LowerIdempotent(rows[i].effect);
    }
    assert NormalizeRows(n) == n;
  }
}
