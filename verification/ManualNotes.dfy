/** The envelope of a manual note: a function of what was submitted, so every replay delivers the same. */
module ManualNotes {
  import opened Wrappers
  import R = Rows

  const MAX_NOTE := 8000
  const MAX_TAGS := 12
  const MAX_TAG_LENGTH := 40
  const CONNECTOR := "manual_note"
  const CONNECTION_KEY := "default"

  /** Text normalization, case folding and the size check of canonical JSON, as the platform gives them. */
  datatype Rules = Rules(display: string -> string, fold: string -> string, fits: R.Payload -> bool)

  /** The labels still to minimize, after `kept` with the folded forms `seen`; None for an over-long tag. */
  function Minimized(labels: seq<string>, seen: set<string>, kept: seq<string>, rules: Rules): Option<seq<string>>
  {
    if labels == [] then Some(kept)
    else
      var tag := rules.display(labels[0]);
      if tag == "" then Minimized(labels[1..], seen, kept, rules)
      else if |tag| > MAX_TAG_LENGTH then None
      else
        var novel := rules.fold(tag) !in seen;
        var kept' := if novel then kept + [tag] else kept;
        if |kept'| == MAX_TAGS then Some(kept')
        else Minimized(labels[1..], if novel then seen + {rules.fold(tag)} else seen, kept', rules)
  }

  method MinimizeLabels(labels: seq<string>, rules: Rules) returns (kept: Option<seq<string>>)
    ensures kept == Minimized(labels, {}, [], rules)
    ensures kept.Some? ==> Minimal(kept.value, rules)
  {
    var out: seq<string>, seen := [], {};
    var i := 0;
    while i < |labels|
      invariant 0 <= i <= |labels| && |out| < MAX_TAGS
      invariant Minimized(labels, {}, [], rules) == Minimized(labels[i..], seen, out, rules)
      invariant Minimal(out, rules) && seen == Folds(out, rules)
    {
      var tag := rules.display(labels[i]);
      assert labels[i..][1..] == labels[i + 1..];
      i := i + 1;
      if tag == "" { continue; }
      if |tag| > MAX_TAG_LENGTH { return None; }
      var lookup := rules.fold(tag);
      if lookup !in seen {
        FoldsAppend(out, tag, rules);
        seen, out := seen + {lookup}, out + [tag];
      }
      if |out| == MAX_TAGS { return Some(out); }
    }
    return Some(out);
  }

  function Folds(labels: seq<string>, rules: Rules): set<string> { set i | 0 <= i < |labels| :: rules.fold(labels[i]) }

  /** At most twelve labels, none blank or over-long, no two alike when case is folded. */
  ghost predicate Minimal(labels: seq<string>, rules: Rules)
  {
    && |labels| <= MAX_TAGS
    && (forall i :: 0 <= i < |labels| ==> 1 <= |labels[i]| <= MAX_TAG_LENGTH)
    && (forall i, j :: 0 <= i < j < |labels| ==> rules.fold(labels[i]) != rules.fold(labels[j]))
  }

  lemma FoldsAppend(labels: seq<string>, tag: string, rules: Rules)
    ensures Folds(labels + [tag], rules) == Folds(labels, rules) + {rules.fold(tag)}
    ensures forall i :: 0 <= i < |labels| ==> rules.fold(labels[i]) in Folds(labels, rules)
  {
    var more := labels + [tag];
    assert forall i :: 0 <= i < |labels| ==> more[i] == labels[i];
    assert more[|labels|] == tag;
  }

  /** None is a content error: a blank or over-long note, or an over-long tag. */
  function Envelope(note: string, at: int, name: string, labels: seq<string>, rules: Rules): Option<R.Envelope>
  {
    var text, kept := rules.display(note), Minimized(labels, {}, [], rules);
    if text == "" || |text| > MAX_NOTE || kept.None? then None
    else
      var content := R.Note(text, Some(at), kept.value);
      Some(R.Envelope(Some("manual:" + name), content, rules.fits(content)))
  }

  /** The display form of label `i` is one the note could keep. */
  predicate Keepable(labels: seq<string>, i: nat, rules: Rules)
    requires i < |labels|
  {
    1 <= |rules.display(labels[i])| <= MAX_TAG_LENGTH
  }

  /** What is kept stays kept. */
  lemma PrefixFolds(kept: seq<string>, out: seq<string>, rules: Rules)
    requires kept <= out
    ensures Folds(kept, rules) <= Folds(out, rules)
  {
    forall f | f in Folds(kept, rules) ensures f in Folds(out, rules) {
      var i :| 0 <= i < |kept| && rules.fold(kept[i]) == f;
      assert out[i] == kept[i];
    }
  }

  /**
   * The labels kept are display forms of the note's labels, and unless twelve are kept every label that is not blank
   * is kept under some spelling.
   */
  lemma {:induction false} LabelsAreComplete(labels: seq<string>, seen: set<string>, kept: seq<string>, rules: Rules)
    requires |kept| < MAX_TAGS && seen == Folds(kept, rules) && Minimized(labels, seen, kept, rules).Some?
    ensures var out := Minimized(labels, seen, kept, rules).value;
            && kept <= out
            && (forall j :: |kept| <= j < |out| ==> exists i :: 0 <= i < |labels| && out[j] == rules.display(labels[i]))
            && (|out| < MAX_TAGS ==>
                  forall i :: 0 <= i < |labels| && rules.display(labels[i]) != "" ==>
                    Keepable(labels, i, rules) && rules.fold(rules.display(labels[i])) in Folds(out, rules))
    decreases |labels|
  {
    if labels != [] {
      var tag, rest, out := rules.display(labels[0]), labels[1..], Minimized(labels, seen, kept, rules).value;
      if tag == "" {
        LabelsAreComplete(rest, seen, kept, rules);
      } else if rules.fold(tag) in seen {
        LabelsAreComplete(rest, seen, kept, rules);
        PrefixFolds(kept, out, rules);
      } else {
        FoldsAppend(kept, tag, rules);
        PrefixFolds(kept + [tag], kept + [tag], rules);
        if |kept| + 1 < MAX_TAGS {
          LabelsAreComplete(rest, seen + {rules.fold(tag)}, kept + [tag], rules);
          PrefixFolds(kept + [tag], out, rules);
        }
      }
      assert forall i :: 0 < i < |labels| ==> labels[i] == rest[i - 1];
    }
  }
}
