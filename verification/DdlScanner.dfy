/**
 The two quote and parenthesis scanners that read the declared schema.

 `Parts` and `TableBody` skip a doubled quote with a look-ahead. The
 specification has no look-ahead: a plain scanner that toggles on every quote.
 */
module DdlScanner {
  import opened Options

  /** Parenthesis depth (it may go negative) and whether the position is inside quotes. */
  datatype State = State(depth: int, quoted: bool)

  const GROUND := State(0, false)

  function Toggle(s: State, c: char): State {
    if c == '\'' then s.(quoted := !s.quoted)
    else if s.quoted then s
    else if c == '(' then s.(depth := s.depth + 1)
    else if c == ')' then s.(depth := s.depth - 1)
    else s
  }

  function Scan(s: State, text: string): State {
    if text == "" then s else Toggle(Scan(s, text[..|text| - 1]), text[|text| - 1])
  }

  /** The characters `str.strip` removes. */
  predicate IsSpace(c: char) {
    || '\t' <= c <= '\r' || '\U{1c}' <= c <= ' ' || c == '\U{85}' || c == '\U{a0}' || c == '\U{1680}'
    || '\U{2000}' <= c <= '\U{200a}' || c == '\U{2028}' || c == '\U{2029}' || c == '\U{202f}'
    || c == '\U{205f}' || c == '\U{3000}'
  }

  function StripLeft(text: string): string {
    if text != "" && IsSpace(text[0]) then StripLeft(text[1..]) else text
  }

  function StripRight(text: string): string {
    if text != "" && IsSpace(text[|text| - 1]) then StripRight(text[..|text| - 1]) else text
  }

  function Strip(text: string): string {
    StripRight(StripLeft(text))
  }

  // ---- cutting at top-level commas -------------------------------------------------

  /** The raw pieces between the commas that the plain scanner sees in the ground state. */
  function Cut(text: string): (pieces: seq<string>)
    ensures |pieces| >= 1
  {
    if text == "" then [""]
    else
      var init, c := text[..|text| - 1], text[|text| - 1];
      var pieces := Cut(init);
      if c == ',' && Scan(GROUND, init) == GROUND then pieces + [""]
      else pieces[..|pieces| - 1] + [pieces[|pieces| - 1] + [c]]
  }

  function StripAll(pieces: seq<string>): (r: seq<string>)
    ensures |r| == |pieces|
  {
    if pieces == [] then [] else StripAll(pieces[..|pieces| - 1]) + [Strip(pieces[|pieces| - 1])]
  }

  lemma StripAllAppend(pieces: seq<string>, p: string)
    ensures StripAll(pieces + [p]) == StripAll(pieces) + [Strip(p)]
  {
    assert (pieces + [p])[..|pieces|] == pieces;
  }

  function Split(text: string): Result<seq<string>> {
    if Scan(GROUND, text) == GROUND then Ok(StripAll(Cut(text))) else Err("needs_updated_parser")
  }

  lemma ScanStep(s: State, text: string, k: nat)
    requires k < |text|
    ensures Scan(s, text[..k + 1]) == Toggle(Scan(s, text[..k]), text[k])
  {
    assert text[..k + 1][..k] == text[..k];
  }

  lemma CutStep(text: string, k: nat)
    requires k < |text|
    ensures var pieces := Cut(text[..k]);
            Cut(text[..k + 1]) == if text[k] == ',' && Scan(GROUND, text[..k]) == GROUND then pieces + [""]
                                  else pieces[..|pieces| - 1] + [pieces[|pieces| - 1] + [text[k]]]
  {
    assert text[..k + 1][..k] == text[..k];
  }

  /** Where the loop of `Parts` stands: `parts` holds every finished piece, trimmed. */
  ghost predicate Progress(text: string, index: nat, parts: seq<string>, start: nat, s: State) {
    && start <= index <= |text|
    && Scan(GROUND, text[..index]) == s
    && |Cut(text[..index])| == |parts| + 1
    && Cut(text[..index])[|parts|] == text[start..index]
    && parts == StripAll(Cut(text[..index])[..|parts|])
  }

  lemma WithinPiece(text: string, index: nat, parts: seq<string>, start: nat, s: State)
    requires Progress(text, index, parts, start, s) && index < |text|
    requires !(text[index] == ',' && s == GROUND)
    ensures Progress(text, index + 1, parts, start, Toggle(s, text[index]))
  {
    ScanStep(GROUND, text, index);
    CutStep(text, index);
    var before, after := Cut(text[..index]), Cut(text[..index + 1]);
    assert after == before[..|parts|] + [before[|parts|] + [text[index]]];
    assert after[..|parts|] == before[..|parts|];
    assert text[start..index + 1] == text[start..index] + [text[index]];
  }

  lemma AtSplitPoint(text: string, index: nat, parts: seq<string>, start: nat)
    requires Progress(text, index, parts, start, GROUND) && index < |text| && text[index] == ','
    ensures Progress(text, index + 1, parts + [Strip(text[start..index])], index + 1, GROUND)
  {
    ScanStep(GROUND, text, index);
    CutStep(text, index);
    var before, after := Cut(text[..index]), Cut(text[..index + 1]);
    assert after == before + [""];
    assert after[..|parts| + 1] == before == before[..|parts|] + [before[|parts|]];
    StripAllAppend(before[..|parts|], before[|parts|]);
    assert text[index + 1..index + 1] == "";
  }

  method Parts(text: string) returns (r: Result<seq<string>>)
    ensures r == Split(text)
  {
    var parts: seq<string>, start, depth, quoted := [], 0, 0, false;
    var index := 0;
    while index < |text|
      invariant Progress(text, index, parts, start, State(depth, quoted))
    {
      var c := text[index];
      if c == '\'' {
        WithinPiece(text, index, parts, start, State(depth, quoted));
        if quoted && index + 1 < |text| && text[index + 1] == '\'' {
          WithinPiece(text, index + 1, parts, start, State(depth, false));
          index := index + 2;
          continue;
        }
        quoted := !quoted;
      } else if !quoted {
        var enclosing := depth;
        depth := depth + (if c == '(' then 1 else 0) - (if c == ')' then 1 else 0);
        if c == ',' && depth == 0 {
          AtSplitPoint(text, index, parts, start);
          parts := parts + [Strip(text[start..index])];
          start := index + 1;
        } else {
          WithinPiece(text, index, parts, start, State(enclosing, false));
        }
      } else {
        WithinPiece(text, index, parts, start, State(depth, true));
      }
      index := index + 1;
    }
    assert text[..index] == text && text[start..index] == text[start..];
    if quoted || depth != 0 {
      return Err("needs_updated_parser");
    }
    var pieces := Cut(text);
    assert pieces == pieces[..|parts|] + [text[start..]];
    StripAllAppend(pieces[..|parts|], text[start..]);
    return Ok(parts + [Strip(text[start..])]);
  }

  // ---- the body of a CREATE TABLE -----------------------------------------------------

  /** `end` is a parenthesis that closes the one before `start`. */
  predicate Closes(statement: string, start: nat, end: nat) {
    start <= end < |statement| && statement[end] == ')' && Scan(GROUND, statement[start..end]) == GROUND
  }

  /** `start` is where the match of `CREATE TABLE [dbo].[name] (` ends. */
  method TableBody(statement: string, start: nat) returns (r: Result<string>)
    requires start <= |statement|
    ensures r.Err? <==> forall e :: !Closes(statement, start, e)
    ensures r.Ok? ==> start + |r.value| <= |statement| && r.value == statement[start..start + |r.value|]
    ensures r.Ok? ==> Closes(statement, start, start + |r.value|)
    ensures r.Ok? ==> forall e :: Closes(statement, start, e) ==> start + |r.value| <= e
  {
    var depth, quoted, index := 1, false, start;
    while index < |statement|
      invariant start <= index <= |statement|
      invariant Scan(GROUND, statement[start..index]) == State(depth - 1, quoted) && depth >= 1
      invariant forall e :: Closes(statement, start, e) ==> index <= e
    {
      var c := statement[index];
      ScanSlice(statement, start, index);
      if c == '\'' {
        if quoted && index + 1 < |statement| && statement[index + 1] == '\'' {
          ScanSlice(statement, start, index + 1);
          index := index + 2;
          continue;
        }
        quoted := !quoted;
      } else if !quoted {
        depth := depth + (if c == '(' then 1 else 0) - (if c == ')' then 1 else 0);
        if depth == 0 {
          assert Closes(statement, start, index);
          return Ok(statement[start..index]);
        }
      }
      index := index + 1;
    }
    return Err("incomplete_create_table");
  }

  lemma ScanSlice(text: string, start: nat, k: nat)
    requires start <= k < |text|
    ensures Scan(GROUND, text[start..k + 1]) == Toggle(Scan(GROUND, text[start..k]), text[k])
  {
    assert text[start..k + 1][..k - start] == text[start..k];
  }

  lemma {:induction false} NeverDips(statement: string, start: nat, end: nat, k: nat)
    requires start <= k <= end < |statement|
    requires forall e :: Closes(statement, start, e) ==> end <= e
    ensures Scan(GROUND, statement[start..k]).depth >= 0
    decreases k
  {
    if k > start {
      NeverDips(statement, start, end, k - 1);
      ScanSlice(statement, start, k - 1);
      assert !Closes(statement, start, k - 1);
    }
  }

  /** The two scanners agree: a body that `TableBody` returns is accepted by `Parts`, and on the
      way its depth never drops below zero. */
  lemma EveryBodyIsAccepted(statement: string, start: nat, end: nat)
    requires Closes(statement, start, end) && forall e :: Closes(statement, start, e) ==> end <= e
    ensures Split(statement[start..end]).Ok?
    ensures forall k | 0 <= k <= end - start :: Scan(GROUND, statement[start..end][..k]).depth >= 0
  {
    forall k | 0 <= k <= end - start ensures Scan(GROUND, statement[start..end][..k]).depth >= 0 {
      NeverDips(statement, start, end, start + k);
      assert statement[start..end][..k] == statement[start..start + k];
    }
  }

  // ---- cutting and joining are inverse -----------------------------------------------

  /** A piece a printer may emit: it returns to the ground state and hides its commas. */
  ghost predicate Whole(p: string) {
    && Scan(GROUND, p) == GROUND
    && forall k | 0 <= k < |p| :: !TopComma(p, k)
  }

  predicate TopComma(p: string, k: nat)
    requires k < |p|
  {
    p[k] == ',' && Scan(GROUND, p[..k]) == GROUND
  }

  ghost predicate ValidPart(p: string) {
    Whole(p) && Strip(p) == p
  }

  ghost predicate AllWhole(parts: seq<string>) {
    parts == [] || (AllWhole(parts[..|parts| - 1]) && Whole(parts[|parts| - 1]))
  }

  ghost predicate AllValid(parts: seq<string>) {
    parts == [] || (AllValid(parts[..|parts| - 1]) && ValidPart(parts[|parts| - 1]))
  }

  function Join(parts: seq<string>, separator: string): string
    requires |parts| >= 1
  {
    if |parts| == 1 then parts[0]
    else Join(parts[..|parts| - 1], separator) + separator + parts[|parts| - 1]
  }

  lemma {:induction false} ScanConcat(s: State, a: string, b: string)
    ensures Scan(s, a + b) == Scan(Scan(s, a), b)
    decreases |b|
  {
    if b == "" {
      assert a + b == a;
    } else {
      assert (a + b)[..|a + b| - 1] == a + b[..|b| - 1];
      ScanConcat(s, a, b[..|b| - 1]);
    }
  }

  /** From the ground state on, a comma-free text only extends the last piece. */
  lemma {:induction false} CutExtend(a: string, b: string)
    requires Scan(GROUND, a) == GROUND
    requires forall k | 0 <= k < |b| :: !TopComma(b, k)
    ensures Cut(a + b) == Cut(a)[..|Cut(a)| - 1] + [Cut(a)[|Cut(a)| - 1] + b]
    decreases |b|
  {
    var last := |Cut(a)| - 1;
    if b == "" {
      assert a + b == a;
      assert Cut(a)[last] + b == Cut(a)[last];
    } else {
      var init, c := b[..|b| - 1], b[|b| - 1];
      assert (a + b)[..|a + b| - 1] == a + init;
      forall k | 0 <= k < |init| ensures !TopComma(init, k) {
        assert init[..k] == b[..k];
        assert !TopComma(b, k);
      }
      CutExtend(a, init);
      ScanConcat(GROUND, a, init);
      assert !TopComma(b, |b| - 1);
      assert (Cut(a)[last] + init) + [c] == Cut(a)[last] + b;
    }
  }

  lemma CutWhole(p: string)
    requires forall k | 0 <= k < |p| :: !TopComma(p, k)
    ensures Cut(p) == [p]
  {
    CutExtend("", p);
    assert "" + p == p;
  }

  lemma CutAtComma(a: string)
    requires Scan(GROUND, a) == GROUND
    ensures Cut(a + ",") == Cut(a) + [""] && Scan(GROUND, a + ",") == GROUND
  {
    assert (a + ",")[..|a|] == a;
  }

  lemma SpaceBefore(p: string)
    requires Whole(p)
    ensures Whole(" " + p)
  {
    forall k | 0 <= k < |" " + p| ensures !TopComma(" " + p, k) {
      if k > 0 {
        assert (" " + p)[..k] == " " + p[..k - 1];
        ScanConcat(GROUND, " ", p[..k - 1]);
        assert Scan(GROUND, " ") == GROUND by { assert " "[..0] == ""; }
        assert !TopComma(p, k - 1);
      }
    }
    ScanConcat(GROUND, " ", p);
  }

  lemma StripSpace(p: string)
    ensures Strip(" " + p) == Strip(p)
  {
    assert (" " + p)[1..] == p;
  }

  /** The raw pieces of a printed list: all but the first keep the separator's space. */
  function Spaced(parts: seq<string>): (r: seq<string>)
    requires |parts| >= 1
    ensures |r| == |parts|
  {
    if |parts| == 1 then parts else Spaced(parts[..|parts| - 1]) + [" " + parts[|parts| - 1]]
  }

  lemma {:induction false} CutJoin(parts: seq<string>)
    requires |parts| >= 1 && AllWhole(parts)
    ensures Scan(GROUND, Join(parts, ", ")) == GROUND
    ensures Cut(Join(parts, ", ")) == Spaced(parts)
    decreases |parts|
  {
    var last := parts[|parts| - 1];
    if |parts| == 1 {
      CutWhole(last);
      assert parts == [last];
    } else {
      CutJoin(parts[..|parts| - 1]);
      AppendPart(Join(parts[..|parts| - 1], ", "), last);
    }
  }

  lemma AppendPart(a: string, p: string)
    requires Scan(GROUND, a) == GROUND && Whole(p)
    ensures Scan(GROUND, a + ", " + p) == GROUND && Cut(a + ", " + p) == Cut(a) + [" " + p]
  {
    CutAtComma(a);
    SpaceBefore(p);
    ScanConcat(GROUND, a + ",", " " + p);
    CutExtend(a + ",", " " + p);
    assert (a + ",") + (" " + p) == a + ", " + p;
    assert "" + (" " + p) == " " + p;
    assert (Cut(a) + [""])[..|Cut(a)|] == Cut(a);
  }

  /** Printing then splitting: any list of trimmed, balanced, comma-hiding parts comes back. */
  lemma SplitInvertsJoin(parts: seq<string>)
    requires |parts| >= 1 && AllValid(parts)
    ensures Split(Join(parts, ", ")) == Ok(parts)
  {
    ValidIsWhole(parts);
    CutJoin(parts);
    StripSpaced(parts);
    ValidIsStripped(parts);
  }

  lemma {:induction false} ValidIsWhole(parts: seq<string>)
    requires AllValid(parts)
    ensures AllWhole(parts)
  {
    if parts != [] {
      ValidIsWhole(parts[..|parts| - 1]);
    }
  }

  lemma {:induction false} StripSpaced(parts: seq<string>)
    requires |parts| >= 1
    ensures StripAll(Spaced(parts)) == StripAll(parts)
    decreases |parts|
  {
    if |parts| > 1 {
      var init, last := parts[..|parts| - 1], parts[|parts| - 1];
      StripSpaced(init);
      StripAllAppend(Spaced(init), " " + last);
      StripSpace(last);
    }
  }

  lemma {:induction false} ValidIsStripped(parts: seq<string>)
    requires AllValid(parts)
    ensures StripAll(parts) == parts
  {
    if parts != [] {
      ValidIsStripped(parts[..|parts| - 1]);
      assert parts == parts[..|parts| - 1] + [parts[|parts| - 1]];
    }
  }

  // ---- what a split is, for every text ---------------------------------------------------

  /** A piece without a top-level comma that leaves the scanner in state `s`. */
  ghost predicate OpenPiece(p: string, s: State) {
    Scan(GROUND, p) == s && forall k | 0 <= k < |p| :: !TopComma(p, k)
  }

  /** `pieces` rejoin to `text`, meet at commas in the ground state, and contain no other such comma. */
  ghost predicate ExactCut(text: string, pieces: seq<string>) {
    && |pieces| >= 1
    && Join(pieces, ",") == text
    && AllWhole(pieces[..|pieces| - 1])
    && OpenPiece(pieces[|pieces| - 1], Scan(GROUND, text))
  }

  lemma StartPiece(text: string, pieces: seq<string>)
    requires ExactCut(text, pieces) && Scan(GROUND, text) == GROUND
    ensures ExactCut(text + ",", pieces + [""])
  {
    CutAtComma(text);
    assert (pieces + [""])[..|pieces|] == pieces;
    assert text + "," == text + "," + "";
    assert Whole(pieces[|pieces| - 1]);
  }

  lemma ExtendPiece(text: string, pieces: seq<string>, c: char)
    requires ExactCut(text, pieces) && !(c == ',' && Scan(GROUND, text) == GROUND)
    ensures ExactCut(text + [c], pieces[..|pieces| - 1] + [pieces[|pieces| - 1] + [c]])
  {
    var last, front := pieces[|pieces| - 1], pieces[..|pieces| - 1];
    assert (front + [last + [c]])[..|front|] == front;
    if |pieces| > 1 {
      assert Join(front, ",") + "," + (last + [c]) == Join(front, ",") + "," + last + [c];
    }
    assert (text + [c])[..|text|] == text;
    ExtendOpen(last, Scan(GROUND, text), c);
  }

  lemma ExtendOpen(p: string, s: State, c: char)
    requires OpenPiece(p, s) && !(c == ',' && s == GROUND)
    ensures OpenPiece(p + [c], Toggle(s, c))
  {
    assert (p + [c])[..|p|] == p;
    forall k | 0 <= k < |p + [c]| ensures !TopComma(p + [c], k) {
      if k < |p| {
        assert (p + [c])[..k] == p[..k];
        assert !TopComma(p, k);
      }
    }
  }

  /** Every split point is a comma in the ground state, and no such comma is missed; joining the
      raw pieces with commas gives the text back. */
  lemma {:induction false} CutIsExact(text: string)
    ensures ExactCut(text, Cut(text))
    decreases |text|
  {
    if text == "" {
      assert Cut(text) == [""];
    } else {
      var init, c := text[..|text| - 1], text[|text| - 1];
      CutIsExact(init);
      assert text == init + [c];
      if c == ',' && Scan(GROUND, init) == GROUND {
        StartPiece(init, Cut(init));
      } else {
        ExtendPiece(init, Cut(init), c);
      }
    }
  }

  lemma {:induction false} StripLeftKeepsWhole(p: string)
    requires Whole(p)
    ensures Whole(StripLeft(p)) && (StripLeft(p) == "" || !IsSpace(StripLeft(p)[0]))
  {
    if p != "" && IsSpace(p[0]) {
      var rest := p[1..];
      assert p == [p[0]] + rest;
      assert Scan(GROUND, [p[0]]) == GROUND by { assert [p[0]][..0] == ""; }
      ScanConcat(GROUND, [p[0]], rest);
      forall k | 0 <= k < |rest| ensures !TopComma(rest, k) {
        assert p[..k + 1] == [p[0]] + rest[..k];
        ScanConcat(GROUND, [p[0]], rest[..k]);
        assert !TopComma(p, k + 1);
      }
      StripLeftKeepsWhole(rest);
    }
  }

  lemma {:induction false} StripRightKeepsWhole(p: string)
    requires Whole(p) && (p == "" || !IsSpace(p[0]))
    ensures var r := StripRight(p);
            Whole(r) && (r == "" || (!IsSpace(r[0]) && !IsSpace(r[|r| - 1])))
  {
    if p != "" && IsSpace(p[|p| - 1]) {
      var rest := p[..|p| - 1];
      forall k | 0 <= k < |rest| ensures !TopComma(rest, k) {
        assert p[..k] == rest[..k];
        assert !TopComma(p, k);
      }
      StripRightKeepsWhole(rest);
    }
  }

  lemma StripIsValid(p: string)
    requires Whole(p)
    ensures ValidPart(Strip(p))
  {
    StripLeftKeepsWhole(p);
    StripRightKeepsWhole(StripLeft(p));
  }

  lemma {:induction false} StripAllIsValid(pieces: seq<string>)
    requires AllWhole(pieces)
    ensures AllValid(StripAll(pieces))
  {
    if pieces != [] {
      StripAllIsValid(pieces[..|pieces| - 1]);
      StripIsValid(pieces[|pieces| - 1]);
      var r := StripAll(pieces);
      assert r[..|r| - 1] == StripAll(pieces[..|pieces| - 1]);
    }
  }

  /** Every successful split yields valid parts, so printing it and splitting again is the identity. */
  lemma SplitIsCanonical(text: string)
    requires Split(text).Ok?
    ensures |Split(text).value| >= 1 && AllValid(Split(text).value)
    ensures Split(Join(Split(text).value, ", ")) == Split(text)
  {
    CutIsExact(text);
    assert Whole(Cut(text)[|Cut(text)| - 1]);
    StripAllIsValid(Cut(text));
    SplitInvertsJoin(Split(text).value);
  }
}
