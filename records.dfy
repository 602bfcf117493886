/**
 The best-time comparison at game over as the page's script evaluates it.  The survived
 time reaches the comparison as the one-decimal text that rounding produces.  The stored
 best is a number when it was read from storage at load.  After the first record it is
 that text, and from then on `>` compares two texts code unit by code unit.
 */
module Records {
  /** The stored best time: a number read from storage, or the text of the last record. */
  datatype Best = Number(value: real) | Text(digits: string)

  /** `a < b` on two texts: the first code unit that differs decides, and a proper prefix is smaller. */
  predicate TextLess(a: string, b: string)
    ensures TextLess(a, b) ==> b != []
    ensures |a| < |b| && a == b[..|a|] ==> TextLess(a, b)
  {
    if b == [] then false
    else if a == [] then true
    else if a[0] != b[0] then a[0] < b[0]
    else TextLess(a[1..], b[1..])
  }

  /** No text is smaller than itself. */
  lemma {:induction false} TextLessIrreflexive(a: string)
    ensures !TextLess(a, a)
  {
    if a != [] {
      TextLessIrreflexive(a[1..]);
    }
  }

  /**
   Whether the script's `survived > best` holds, where `text` is the rounded survival time
   and `survived` stands for the numeric value of `text`, the value the script reads the
   text back as when it compares it with a number.  Against a text the two texts are
   compared.
   */
  function BeatsAsWritten(survived: real, text: string, best: Best): (r: bool)
    ensures best.Number? ==> (r <==> survived > best.value)
    ensures best.Text? && best.digits == text ==> !r
  {
    match best
    case Number(value) => survived > value
    case Text(digits) => TextLessIrreflexive(text); TextLess(digits, text)
  }

  /** The best time the script keeps after a game: the text of a record, or the old best. */
  function SavedAsWritten(survived: real, text: string, best: Best): (r: Best)
    ensures BeatsAsWritten(survived, text, best) ==> r == Text(text)
    ensures !BeatsAsWritten(survived, text, best) ==> r == best
  {
    if BeatsAsWritten(survived, text, best) then Text(text) else best
  }

  /**
   After a 12.3 s record, a 9.5 s run counts as a new record: "12.3" < "9.5" as texts,
   because '1' < '9'.  The saved best time then goes down to 9.5 s.
   */
  lemma ShorterRunReplacesRecord()
    ensures 9.5 < 12.3
    ensures BeatsAsWritten(9.5, "9.5", Text("12.3"))
    ensures SavedAsWritten(9.5, "9.5", Text("12.3")) == Text("9.5")
  {
    assert TextLess("12.3", "9.5");
  }

  /**
   After a 99.0 s record, a 100.0 s run does not count as a new record: "99.0" < "100.0"
   fails as texts, because '9' > '1'.
   */
  lemma LongerRunMissesRecord()
    ensures 100.0 > 99.0
    ensures !BeatsAsWritten(100.0, "100.0", Text("99.0"))
    ensures SavedAsWritten(100.0, "100.0", Text("99.0")) == Text("99.0")
  {
    assert !TextLess("99.0", "100.0");
  }

  /** The first record after loading still compares numerically, as the script intends. */
  lemma FirstRecordIsNumeric(survived: real, text: string, loaded: real)
    requires survived > loaded
    ensures SavedAsWritten(survived, text, Number(loaded)) == Text(text)
  {
  }
}
