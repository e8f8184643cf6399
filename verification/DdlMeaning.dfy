/** What the scanners compute, counted rather than scanned. */
module DdlMeaning {
  import opened Options
  import opened DdlScanner

  ghost function Quotes(text: string): nat {
    if text == "" then 0 else Quotes(text[..|text| - 1]) + if text[|text| - 1] == '\'' then 1 else 0
  }

  /** How often c occurs with an even number of quotes before it. */
  ghost function Outside(text: string, c: char): nat {
    if text == "" then 0
    else
      var init := text[..|text| - 1];
      Outside(init, c) + if text[|text| - 1] == c && Quotes(init) % 2 == 0 then 1 else 0
  }

  /** Quotes closed, and as many parentheses opened as closed outside them. */
  ghost predicate Balanced(text: string) {
    Quotes(text) % 2 == 0 && Outside(text, '(') == Outside(text, ')')
  }

  /** The scanner's state is the parity of the quotes and the parentheses outside them. */
  lemma {:induction false} ScanCounts(text: string)
    ensures Scan(GROUND, text) == State(Outside(text, '(') - Outside(text, ')'), Quotes(text) % 2 == 1)
  {
    if text != "" {
      ScanCounts(text[..|text| - 1]);
    }
  }

  /** Splitting fails exactly on an unbalanced text. */
  lemma SplitFailsExactly(text: string)
    ensures Split(text).Ok? <==> Balanced(text)
  {
    ScanCounts(text);
  }

  /** A parenthesis closes the body exactly when what lies between is balanced. */
  lemma ClosesExactly(statement: string, start: nat, end: nat)
    ensures Closes(statement, start, end) <==>
              start <= end < |statement| && statement[end] == ')' && Balanced(statement[start..end])
  {
    if start <= end < |statement| {
      ScanCounts(statement[start..end]);
    }
  }

  /** A comma splits exactly when what lies before it is balanced. */
  lemma SplitsExactly(text: string, k: nat)
    requires k < |text|
    ensures TopComma(text, k) <==> text[k] == ',' && Balanced(text[..k])
  {
    ScanCounts(text[..k]);
  }

  lemma {:induction false} StripLeftTakesSpaces(text: string) returns (a: nat)
    ensures a <= |text| && StripLeft(text) == text[a..] && forall i | 0 <= i < a :: IsSpace(text[i])
  {
    if text != "" && IsSpace(text[0]) {
      var b := StripLeftTakesSpaces(text[1..]);
      a := b + 1;
    } else {
      a := 0;
    }
  }

  lemma {:induction false} StripRightTakesSpaces(text: string) returns (b: nat)
    ensures b <= |text| && StripRight(text) == text[..b] && forall i | b <= i < |text| :: IsSpace(text[i])
  {
    if text != "" && IsSpace(text[|text| - 1]) {
      b := StripRightTakesSpaces(text[..|text| - 1]);
      assert text[..|text| - 1][..b] == text[..b];
    } else {
      b := |text|;
    }
  }

  /** Trimming takes spaces off both ends and nothing else. */
  lemma StripTakesSpaces(text: string) returns (a: nat, b: nat)
    ensures a <= b <= |text| && Strip(text) == text[a..b]
    ensures forall i | 0 <= i < a || b <= i < |text| :: IsSpace(text[i])
    ensures a < b ==> !IsSpace(text[a]) && !IsSpace(text[b - 1])
  {
    a := StripLeftTakesSpaces(text);
    var c := StripRightTakesSpaces(text[a..]);
    b := a + c;
    StripLeftEndsAtText(text);
    StripRightEndsAtText(text[a..]);
  }

  lemma {:induction false} StripLeftEndsAtText(text: string)
    ensures StripLeft(text) == "" || !IsSpace(StripLeft(text)[0])
  {
    if text != "" && IsSpace(text[0]) {
      StripLeftEndsAtText(text[1..]);
    }
  }

  lemma {:induction false} StripRightEndsAtText(text: string)
    ensures StripRight(text) == "" || !IsSpace(StripRight(text)[|StripRight(text)| - 1])
  {
    if text != "" && IsSpace(text[|text| - 1]) {
      StripRightEndsAtText(text[..|text| - 1]);
    }
  }

  /** The parts are the raw pieces between the splitting commas, trimmed one by one. */
  lemma SplitTrimsThePieces(text: string)
    requires Split(text).Ok?
    ensures ExactCut(text, Cut(text))
    ensures |Split(text).value| == |Cut(text)|
    ensures forall i | 0 <= i < |Cut(text)| :: Split(text).value[i] == Strip(Cut(text)[i])
  {
    CutIsExact(text);
    StripAllTrims(Cut(text));
  }

  lemma {:induction false} StripAllTrims(pieces: seq<string>)
    ensures |StripAll(pieces)| == |pieces|
    ensures forall i | 0 <= i < |pieces| :: StripAll(pieces)[i] == Strip(pieces[i])
  {
    if pieces != [] {
      StripAllTrims(pieces[..|pieces| - 1]);
      assert pieces == pieces[..|pieces| - 1] + [pieces[|pieces| - 1]];
    }
  }
}
