/** The model-facing half of the pipeline (backend/src/mcp_client.py): the
    prompt sent to the language model and the recovery of a JSON list from
    its untrusted reply. The remote call is the parameter `complete`, the
    DataFrame's `to_string(index=False)` is `render`, and `json.loads` is
    `parse`. */
module McpClient {
  import opened Outcomes
  import opened JsonValues
  import opened Strings
  import Frames
  import Schemas

  /* ------------------------------------------------------------------ */
  /* Prompt                                                              */
  /* ------------------------------------------------------------------ */

  /** What `generate_ai_insights` may be handed: a string, an object with a
      `to_string` method (a DataFrame), or anything else. */
  datatype PromptInput = PlainText(text: string) | Table(df: Frames.DataFrame) | OtherObject

  /** The data text: a string as it is, a table rendered without its index,
      and a ValueError for anything else. */
  function PromptData(input: PromptInput, render: Frames.DataFrame -> string): (r: Result<string>)
    ensures r.Err? <==> input.OtherObject?
    ensures r.Err? ==> r.error == InvalidPrompt
    ensures input.PlainText? ==> r == Ok(input.text)
    ensures input.Table? ==> r == Ok(render(input.df))
  {
    match input
    case PlainText(text) => Ok(text)
    case Table(df) => Ok(render(df))
    case OtherObject => Err(InvalidPrompt)
  }

  const Indent: string := "    "

  /** One line of the triple-quoted template, with its indentation. */
  function Line(text: string): string {
    Indent + text + "\n"
  }

  function FieldLine(name: string, kind: string): string {
    "- " + name + " (" + kind + ")"
  }

  const AskLine: string := "Analyze the following data and return 3 insights in strict JSON format."
  const RespondLine: string := "Respond ONLY with raw JSON."

  /** The four field lines, one per `Insight` field in declaration order. */
  const FieldLines: seq<string> := [
    FieldLine(Schemas.InsightFields[0], "str"),
    FieldLine(Schemas.InsightFields[1], "str"),
    FieldLine(Schemas.InsightFields[2], "float"),
    FieldLine(Schemas.InsightFields[3], "list[int]")]

  /** The template before the data, piece by piece: the blank first line,
      the request, the field list, the demand for raw JSON and the data
      heading, then the indentation the data starts on. */
  const InstructionParts: seq<string> := [
    "\n", Line(AskLine), "\n", Line("Each insight must contain:"),
    Line(FieldLines[0]), Line(FieldLines[1]), Line(FieldLines[2]), Line(FieldLines[3]),
    "\n", Line(RespondLine), "\n", Line("Data:"), Indent]

  /** Everything in the template before the data. */
  const Instruction: string := Concat(InstructionParts)

  /** Everything in the template after the data. */
  const Closing: string := "\n" + Indent

  /** `full_prompt`: the instruction followed by the data, and the data can
      be read back from it unchanged. */
  function FullPrompt(data: string): (p: string)
    ensures |p| == |Instruction| + |data| + |Closing|
    ensures StartsWith(p, Instruction) && EndsWith(p, Closing)
    ensures p[|Instruction|..|p| - |Closing|] == data
  {
    var p := Instruction + data + Closing;
    assert p[..|Instruction|] == Instruction;
    assert p[|Instruction|..|p| - |Closing|] == data;
    p
  }

  lemma ContainsLine(x: string)
    ensures Contains(Line(x), x)
  {
    assert SliceAt(Line(x), x, |Indent|);
  }

  /** The line at position `k` of the instruction carries `x`. */
  lemma InstructionCarries(k: nat, x: string)
    requires k < |InstructionParts| && InstructionParts[k] == Line(x)
    ensures Contains(Instruction, x)
  {
    ConcatContains(InstructionParts, k);
    ContainsLine(x);
    ContainsTrans(Instruction, Line(x), x);
  }

  /** The instruction asks for three insights in strict JSON and demands raw
      JSON only. */
  lemma InstructionAsks()
    ensures Contains(Instruction, AskLine) && Contains(Instruction, RespondLine)
  {
    InstructionCarries(1, AskLine);
    InstructionCarries(9, RespondLine);
  }

  /** The instruction has a line for every field of `Insight`, naming the
      field and its type. */
  lemma InstructionListsFields()
    ensures forall k :: 0 <= k < 4 ==> Contains(Instruction, FieldLines[k])
    ensures forall k :: 0 <= k < 4 ==> StartsWith(FieldLines[k], "- " + Schemas.InsightFields[k] + " (")
  {
    forall k | 0 <= k < 4 ensures Contains(Instruction, FieldLines[k]) {
      InstructionCarries(k + 4, FieldLines[k]);
    }
    forall k | 0 <= k < 4
      ensures StartsWith(FieldLines[k], "- " + Schemas.InsightFields[k] + " (")
    {
      var name := Schemas.InsightFields[k];
      var kind := ["str", "str", "float", "list[int]"][k];
      assert FieldLines[k] == ("- " + name + " (") + (kind + ")");
    }
  }

  /* ------------------------------------------------------------------ */
  /* Whitespace strip                                                    */
  /* ------------------------------------------------------------------ */

  /** First index at or after `i` that is not whitespace. */
  function SkipSpaces(s: string, i: nat): (j: nat)
    requires i <= |s|
    ensures SpacesBetween(s, i, j)
    ensures j == |s| || !IsSpace(s[j])
    decreases |s| - i
  {
    if i == |s| || !IsSpace(s[i]) then i else SkipSpaces(s, i + 1)
  }

  /** Start of the whitespace run that ends at `j`. */
  function SpacesBefore(s: string, j: nat): (i: nat)
    requires j <= |s|
    ensures SpacesBetween(s, i, j)
    ensures i == 0 || !IsSpace(s[i - 1])
  {
    if j == 0 || !IsSpace(s[j - 1]) then j else SpacesBefore(s, j - 1)
  }

  /** A non-space character after a run of whitespace from `t` is the first
      non-space character from `t` on. */
  lemma FirstNonSpace(s: string, t: nat, c: nat)
    requires SpacesBetween(s, t, c) && c < |s| && !IsSpace(s[c])
    ensures SkipSpaces(s, t) == c
  {
  }

  /** `s.strip()`: leading and then trailing whitespace removed. What is
      left is a piece of `s` that neither starts nor ends with whitespace,
      and only whitespace was removed around it. */
  function Strip(s: string): (r: string)
    ensures r == [] || (!IsSpace(r[0]) && !IsSpace(r[|r| - 1]))
    ensures exists i :: SliceAt(s, r, i) && SpacesBetween(s, 0, i) && SpacesBetween(s, i + |r|, |s|)
  {
    var i := SkipSpaces(s, 0);
    var j := SpacesBefore(s, |s|);
    if j <= i then
      assert SliceAt(s, [], i);
      []
    else
      assert SliceAt(s, s[i..j], i);
      s[i..j]
  }

  /* ------------------------------------------------------------------ */
  /* Bracket trims                                                       */
  /* ------------------------------------------------------------------ */

  /** `re.sub(r"^[^\[]*", "", s)`: the longest prefix free of `[` is
      removed, so the rest is empty or starts with `[`. */
  function LeftTrim(s: string): (r: string)
    ensures |r| <= |s| && r == s[|s| - |r|..]
    ensures forall k :: 0 <= k < |s| - |r| ==> s[k] != '['
    ensures r == [] || r[0] == '['
  {
    s[FirstIndex(s, '[')..]
  }

  /** `re.sub(r"[^\]]*$", "", s)`: the longest suffix free of `]` is
      removed, so the rest is empty or ends with `]`. (The `$` of Python's
      `re` also matches before a final newline, but a match starting there
      is never the leftmost one, so the result is the same.) */
  function RightTrim(s: string): (r: string)
    ensures |r| <= |s| && r == s[..|r|]
    ensures forall k :: |r| <= k < |s| ==> s[k] != ']'
    ensures r == [] || r[|r| - 1] == ']'
  {
    s[..LastIndex(s, ']') + 1]
  }

  /** The two trims of mcp_client.py:87-88, in order. */
  function BracketTrim(s: string): string {
    RightTrim(LeftTrim(s))
  }

  /** Some `[` comes before some `]`. */
  predicate HasBracketPair(s: string) {
    exists i, j :: 0 <= i < j < |s| && s[i] == '[' && s[j] == ']'
  }

  lemma LastIndexInSuffix(s: string, f: nat, c: char)
    requires f <= |s|
    ensures LastIndex(s[f..], c) == if LastIndex(s, c) >= f then LastIndex(s, c) - f else -1
  {
    var l := LastIndex(s, c);
    var t := s[f..];
    if l >= f {
      assert t[l - f] == c;
      LastIndexAt(t, c, l - f);
    } else {
      assert c !in t by {
        forall k | 0 <= k < |t| ensures t[k] != c { assert t[k] == s[k + f]; }
      }
    }
  }

  /** The text from the first `[` to the last `]`, or nothing when the last
      `]` does not come after the first `[`. */
  function Span(s: string): string {
    var f, l := FirstIndex(s, '['), LastIndex(s, ']');
    if f < l then s[f..l + 1] else []
  }

  /** The two trims keep exactly the span from the first `[` to the last
      `]`. */
  lemma BracketTrimSpan(s: string)
    ensures BracketTrim(s) == Span(s)
  {
    var f, l := FirstIndex(s, '['), LastIndex(s, ']');
    var t := LeftTrim(s);
    assert t == s[f..];
    LastIndexInSuffix(s, f, ']');
    if f < l {
      TrimOfSuffix(s, f, l, t);
    } else {
      assert l != f by { if f < |s| { assert s[f] == '['; } }
      NothingToKeep(t);
    }
  }

  lemma NothingToKeep(t: string)
    requires LastIndex(t, ']') == -1
    ensures RightTrim(t) == []
  {
  }

  lemma TrimOfSuffix(s: string, f: nat, l: nat, t: string)
    requires f < l < |s| && t == s[f..]
    requires LastIndex(t, ']') == l - f
    ensures RightTrim(t) == s[f..l + 1]
  {
    assert t[..l - f + 1] == s[f..l + 1];
  }

  /** The trims leave nothing exactly when no `[` comes before a `]`. */
  lemma {:induction false} BracketTrimEmpty(s: string)
    ensures BracketTrim(s) == [] <==> !HasBracketPair(s)
  {
    BracketTrimSpan(s);
    var f, l := FirstIndex(s, '['), LastIndex(s, ']');
    if f < l {
      assert s[f] == '[' && s[l] == ']';
    } else {
      assert forall i, j :: 0 <= i < j < |s| && s[i] == '[' && s[j] == ']' ==> f <= i && j <= l;
    }
  }

  /** Text already delimited by brackets (a captured fence body, say) is left
      as it is by both trims. */
  lemma Delimited(s: string)
    requires |s| >= 2 && s[0] == '[' && s[|s| - 1] == ']'
    ensures BracketTrim(s) == s
  {
    FirstIndexAt(s, '[', 0);
    LastIndexAt(s, ']', |s| - 1);
    BracketTrimSpan(s);
  }

  /** The trimmed text is a contiguous piece of the input, empty or
      delimited by brackets, and trimming it again changes nothing. */
  lemma BracketTrimShape(s: string)
    ensures var r := BracketTrim(s);
      && (exists i :: SliceAt(s, r, i))
      && (r == [] || (|r| >= 2 && r[0] == '[' && r[|r| - 1] == ']'))
      && BracketTrim(r) == r
  {
    var r := BracketTrim(s);
    BracketTrimSpan(s);
    var f, l := FirstIndex(s, '['), LastIndex(s, ']');
    if f < l {
      assert SliceAt(s, r, f);
      Delimited(r);
    } else {
      assert SliceAt(s, r, 0);
    }
  }

  /** Removing surrounding whitespace never changes what the trims keep:
      whitespace is not a bracket. */
  lemma StripThenTrim(s: string)
    ensures BracketTrim(Strip(s)) == BracketTrim(s)
  {
    var r := Strip(s);
    var i :| SliceAt(s, r, i) && SpacesBetween(s, 0, i) && SpacesBetween(s, i + |r|, |s|);
    SameBracketsInside(s, r, i);
  }

  /** Where `r` sits in `s` with nothing but non-`c` characters before it,
      the first `c` of `s` is the first `c` of `r`, shifted. */
  lemma FirstIndexInside(s: string, r: string, i: nat, c: char)
    requires SliceAt(s, r, i)
    requires forall k :: 0 <= k < i ==> s[k] != c
    requires forall k :: i + |r| <= k < |s| ==> s[k] != c
    ensures FirstIndex(r, c) < |r| ==> FirstIndex(s, c) == FirstIndex(r, c) + i
    ensures FirstIndex(r, c) == |r| ==> FirstIndex(s, c) == |s|
  {
    var f := FirstIndex(r, c);
    if f < |r| {
      assert s[f + i] == r[f];
      forall k | 0 <= k < f + i ensures s[k] != c {
        if k >= i { assert s[k] == r[k - i]; }
      }
      FirstIndexAt(s, c, f + i);
    } else {
      forall k | 0 <= k < |s| ensures s[k] != c {
        if i <= k < i + |r| { assert s[k] == r[k - i]; }
      }
    }
  }

  /** The mirror image for the last `c`. */
  lemma LastIndexInside(s: string, r: string, i: nat, c: char)
    requires SliceAt(s, r, i)
    requires forall k :: 0 <= k < i ==> s[k] != c
    requires forall k :: i + |r| <= k < |s| ==> s[k] != c
    ensures LastIndex(r, c) >= 0 ==> LastIndex(s, c) == LastIndex(r, c) + i
    ensures LastIndex(r, c) == -1 ==> LastIndex(s, c) == -1
  {
    var l := LastIndex(r, c);
    if l >= 0 {
      assert s[l + i] == r[l];
      forall k | l + i < k < |s| ensures s[k] != c {
        if k < i + |r| { assert s[k] == r[k - i]; }
      }
      LastIndexAt(s, c, l + i);
    } else {
      forall k | 0 <= k < |s| ensures s[k] != c {
        if i <= k < i + |r| { assert s[k] == r[k - i]; }
      }
    }
  }

  /** When everything outside `s[i..i + |r|]` is bracket-free, the trims of
      `s` and of that piece agree. */
  lemma SameBracketsInside(s: string, r: string, i: nat)
    requires SliceAt(s, r, i)
    requires forall k :: 0 <= k < i ==> s[k] != '[' && s[k] != ']'
    requires forall k :: i + |r| <= k < |s| ==> s[k] != '[' && s[k] != ']'
    ensures BracketTrim(r) == BracketTrim(s)
  {
    FirstIndexInside(s, r, i, '[');
    LastIndexInside(s, r, i, ']');
    SpanShift(s, r, i);
    BracketTrimSpan(r);
    BracketTrimSpan(s);
  }

  /** The spans of `s` and of its piece `r` agree once the first `[` and the
      last `]` of `s` are those of `r`, shifted (or both absent). */
  lemma SpanShift(s: string, r: string, i: nat)
    requires SliceAt(s, r, i)
    requires FirstIndex(r, '[') < |r| ==> FirstIndex(s, '[') == FirstIndex(r, '[') + i
    requires FirstIndex(r, '[') == |r| ==> FirstIndex(s, '[') == |s|
    requires LastIndex(r, ']') >= 0 ==> LastIndex(s, ']') == LastIndex(r, ']') + i
    requires LastIndex(r, ']') == -1 ==> LastIndex(s, ']') == -1
    ensures Span(r) == Span(s)
  {
    var f, l := FirstIndex(r, '['), LastIndex(r, ']');
    if f < l {
      SpanShiftPair(s, r, i, f, l, Span(r), Span(s));
    }
  }

  /** The span of `r` from `f` to `l` is the span of `s` from `f + i` to
      `l + i`. */
  lemma SpanShiftPair(s: string, r: string, i: nat, f: nat, l: nat, inR: string, inS: string)
    requires SliceAt(s, r, i) && f < l < |r|
    requires inR == r[f..l + 1] && inS == s[f + i..l + i + 1]
    ensures inR == inS
  {
    SliceOfSlice(s, i, i + |r|, f, l + 1);
  }

  lemma SliceOfSlice(s: string, i: nat, j: nat, a: nat, b: nat)
    requires i <= j <= |s| && a <= b <= j - i
    ensures s[i..j][a..b] == s[i + a..i + b]
  {
    assert forall k :: 0 <= k < b - a ==> s[i..j][a..b][k] == s[i + a + k];
  }

  /** The whole clean-up of mcp_client.py:86-88: strip, left trim, right trim. */
  function Trim(s: string): string {
    BracketTrim(Strip(s))
  }

  /** Cleaning twice is cleaning once. */
  lemma TrimIdempotent(s: string)
    ensures Trim(Trim(s)) == Trim(s)
  {
    var r := Trim(s);
    StripThenTrim(s);
    StripThenTrim(r);
    BracketTrimShape(s);
  }

  /* ------------------------------------------------------------------ */
  /* Fenced block: re.search(r"```(?:json)?\s*(\[.*?\])\s*```", s, DOTALL) */
  /* ------------------------------------------------------------------ */

  predicate Ticks(s: string, p: int) {
    0 <= p && p + 3 <= |s| && s[p] == '`' && s[p + 1] == '`' && s[p + 2] == '`'
  }

  predicate JsonTag(s: string, p: int) {
    0 <= p && p + 4 <= |s| && s[p] == 'j' && s[p + 1] == 's' && s[p + 2] == 'o' && s[p + 3] == 'n'
  }

  /** `\s*\[` read from `t`, with the bracket at `b`. */
  predicate OpensAt(s: string, t: int, b: int) {
    SpacesBetween(s, t, b) && b < |s| && s[b] == '['
  }

  /** `\s*```` read from `e`. */
  ghost predicate ClosesAt(s: string, e: int) {
    exists c :: SpacesBetween(s, e, c) && Ticks(s, c)
  }

  /** The pattern matches at `i` with group 1 equal to `s[b..e]`. */
  ghost predicate FenceMatch(s: string, i: int, b: int, e: int) {
    && Ticks(s, i)
    && (OpensAt(s, i + 3, b) || (JsonTag(s, i + 3) && OpensAt(s, i + 7, b)))
    && b + 2 <= e <= |s| && s[e - 1] == ']'
    && ClosesAt(s, e)
  }

  /** Where the body starts after the ticks at `i`: the `json` tag is taken
      when present, then all whitespace, and a `[` must follow. */
  function OpenAfterTicks(s: string, i: nat): (r: Option<nat>)
    requires Ticks(s, i)
    ensures r.Some? ==> r.value < |s| && s[r.value] == '['
  {
    var t := if JsonTag(s, i + 3) then i + 7 else i + 3;
    var b := SkipSpaces(s, t);
    if b < |s| && s[b] == '[' then Some(b) else None
  }

  /** The smallest end `e` from `e0` on where `]` is followed by whitespace
      and three ticks (the lazy `.*?`). */
  function ShortestClose(s: string, e0: nat): (r: Option<nat>)
    ensures r.Some? ==> 1 <= e0 <= r.value <= |s| && s[r.value - 1] == ']'
    decreases |s| + 1 - e0
  {
    if e0 == 0 || e0 > |s| then None
    else if s[e0 - 1] == ']' && Ticks(s, SkipSpaces(s, e0)) then Some(e0)
    else ShortestClose(s, e0 + 1)
  }

  /** A match found by the scan: where the ticks start, and the body
      `s[bodyStart..bodyEnd]`. */
  datatype Fence = Fence(at: nat, bodyStart: nat, bodyEnd: nat)

  predicate FenceShape(s: string, f: Fence) {
    f.bodyStart + 2 <= f.bodyEnd <= |s| && s[f.bodyStart] == '[' && s[f.bodyEnd - 1] == ']'
    && Ticks(s, f.at)
  }

  function FenceAt(s: string, i: nat): (r: Option<Fence>)
    ensures r.Some? ==> r.value.at == i && FenceShape(s, r.value)
  {
    if !Ticks(s, i) then None
    else match OpenAfterTicks(s, i)
      case None => None
      case Some(b) =>
        match ShortestClose(s, b + 2)
        case None => None
        case Some(e) => Some(Fence(i, b, e))
  }

  /** `re.search`: the first position from `i` on where the pattern matches. */
  function SearchFence(s: string, i: nat): (r: Option<Fence>)
    ensures r.Some? ==> i <= r.value.at && FenceShape(s, r.value)
    decreases |s| + 1 - i
  {
    if i > |s| then None
    else match FenceAt(s, i)
      case Some(f) => Some(f)
      case None => SearchFence(s, i + 1)
  }

  lemma ClosesAtIff(s: string, e: nat)
    requires e <= |s|
    ensures ClosesAt(s, e) <==> Ticks(s, SkipSpaces(s, e))
  {
    var j := SkipSpaces(s, e);
    if ClosesAt(s, e) {
      var c :| SpacesBetween(s, e, c) && Ticks(s, c);
      assert !IsSpace(s[c]);
      FirstNonSpace(s, e, c);
    }
  }

  lemma OpenAfterTicksIff(s: string, i: nat, b: int)
    requires Ticks(s, i)
    ensures (OpensAt(s, i + 3, b) || (JsonTag(s, i + 3) && OpensAt(s, i + 7, b)))
        <==> OpenAfterTicks(s, i) == Some(b)
  {
    if JsonTag(s, i + 3) {
      assert s[i + 3] == 'j' && !IsSpace(s[i + 3]);
      assert !OpensAt(s, i + 3, b);
      if OpensAt(s, i + 7, b) { FirstNonSpace(s, i + 7, b); }
    } else {
      if OpensAt(s, i + 3, b) { FirstNonSpace(s, i + 3, b); }
    }
  }

  lemma {:induction false} ShortestCloseSpec(s: string, e0: nat)
    requires e0 >= 1
    ensures ShortestClose(s, e0).Some? ==> ClosesAt(s, ShortestClose(s, e0).value)
    ensures forall e :: e0 <= e <= |s| && s[e - 1] == ']' && ClosesAt(s, e) ==>
      ShortestClose(s, e0).Some? && ShortestClose(s, e0).value <= e
    decreases |s| + 1 - e0
  {
    if e0 <= |s| {
      ClosesAtIff(s, e0);
      if !(s[e0 - 1] == ']' && Ticks(s, SkipSpaces(s, e0))) {
        ShortestCloseSpec(s, e0 + 1);
      }
    }
  }

  /** The pattern matches at `i` with group 1 `s[f.bodyStart..f.bodyEnd]`,
      and every match at `i` has that body start and a body at least as
      long: the lazy `.*?` takes the shortest. */
  ghost predicate ShortestAt(s: string, i: int, f: Fence) {
    && FenceMatch(s, i, f.bodyStart, f.bodyEnd)
    && forall b, e :: FenceMatch(s, i, b, e) ==> b == f.bodyStart && f.bodyEnd <= e
  }

  ghost predicate NoMatchAt(s: string, i: int) {
    forall b, e :: !FenceMatch(s, i, b, e)
  }

  /** What `re.search` from `i` returns: the leftmost match with its
      shortest body, or nothing when the pattern matches nowhere from `i`. */
  ghost predicate FirstMatch(s: string, i: int, r: Option<Fence>) {
    match r
    case Some(f) =>
      && i <= f.at
      && (forall j, b, e :: i <= j < f.at ==> !FenceMatch(s, j, b, e))
      && ShortestAt(s, f.at, f)
    case None => forall j, b, e :: i <= j ==> !FenceMatch(s, j, b, e)
  }

  /** At one position the scan yields a match of the pattern, with the only
      possible body start and the shortest body; no result means no match
      there. */
  lemma FenceAtSpec(s: string, i: nat)
    ensures FenceAt(s, i).Some? ==> FenceAt(s, i).value.at == i && ShortestAt(s, i, FenceAt(s, i).value)
    ensures FenceAt(s, i).None? ==> NoMatchAt(s, i)
  {
    if Ticks(s, i) {
      match OpenAfterTicks(s, i)
      case None => NoOpening(s, i);
      case Some(b) => ClosingAfter(s, i, b);
    }
  }

  lemma NoOpening(s: string, i: nat)
    requires Ticks(s, i) && OpenAfterTicks(s, i).None?
    ensures NoMatchAt(s, i)
  {
    forall b, e ensures !FenceMatch(s, i, b, e) {
      OpenAfterTicksIff(s, i, b);
    }
  }

  lemma ClosingAfter(s: string, i: nat, b: nat)
    requires Ticks(s, i) && OpenAfterTicks(s, i) == Some(b)
    ensures FenceAt(s, i).Some? ==> ShortestAt(s, i, FenceAt(s, i).value)
    ensures FenceAt(s, i).None? ==> NoMatchAt(s, i)
  {
    ShortestCloseSpec(s, b + 2);
    forall b', e | FenceMatch(s, i, b', e) ensures b' == b {
      OpenAfterTicksIff(s, i, b');
    }
    OpenAfterTicksIff(s, i, b);
  }

  /** `re.search` finds the leftmost match, with the shortest body there;
      when it finds nothing, the pattern matches nowhere. */
  lemma {:induction false} SearchFenceSpec(s: string, i: nat)
    ensures FirstMatch(s, i, SearchFence(s, i))
    decreases |s| + 1 - i
  {
    if i > |s| {
      NoTicksBeyond(s, i);
    } else if FenceAt(s, i).Some? {
      FenceAtSpec(s, i);
    } else {
      FenceAtSpec(s, i);
      SearchFenceSpec(s, i + 1);
      SearchLater(s, i, SearchFence(s, i + 1));
    }
  }

  lemma NoTicksBeyond(s: string, i: nat)
    requires i > |s|
    ensures FirstMatch(s, i, None)
  {
  }

  /** No match at `i`: the first match from `i` is the first from `i + 1`. */
  lemma SearchLater(s: string, i: nat, r: Option<Fence>)
    requires NoMatchAt(s, i) && FirstMatch(s, i + 1, r)
    ensures FirstMatch(s, i, r)
  {
  }

  /* ------------------------------------------------------------------ */
  /* Recovery                                                            */
  /* ------------------------------------------------------------------ */

  /** The text chosen at mcp_client.py:82-83: the fence body when there is
      one, the stripped reply otherwise. */
  function ChosenText(raw: string): string {
    match SearchFence(raw, 0)
    case Some(f) => raw[f.bodyStart..f.bodyEnd]
    case None => Strip(raw)
  }

  /** The text handed to `json.loads`. */
  function CleanReply(raw: string): string {
    Trim(ChosenText(raw))
  }

  /** `json.loads` on the cleaned text; a decoding failure becomes the
      ValueError of mcp_client.py:93-95. */
  function Recover(raw: string, parse: string -> Option<seq<Json>>): (r: Result<seq<Json>>)
    ensures r.Ok? <==> parse(CleanReply(raw)).Some?
    ensures r.Ok? ==> parse(CleanReply(raw)) == Some(r.value)
    ensures r.Err? ==> r.error == ParseFailed(raw)
  {
    match parse(CleanReply(raw))
    case None => Err(ParseFailed(raw))
    case Some(items) => Ok(items)
  }

  /** Text that begins with `[` and ends with `]` has nothing to strip. */
  lemma StripDelimited(s: string)
    requires |s| >= 2 && s[0] == '[' && s[|s| - 1] == ']'
    ensures Strip(s) == s
  {
    assert SkipSpaces(s, 0) == 0;
    assert SpacesBefore(s, |s|) == |s|;
  }

  /** With a fenced block, exactly its body is parsed. */
  lemma CleanReplyFence(raw: string)
    requires SearchFence(raw, 0).Some?
    ensures var f := SearchFence(raw, 0).value;
      CleanReply(raw) == raw[f.bodyStart..f.bodyEnd]
  {
    var f := SearchFence(raw, 0).value;
    var body := raw[f.bodyStart..f.bodyEnd];
    StripDelimited(body);
    Delimited(body);
  }

  /** Without one, the reply trimmed to its outermost brackets is parsed. */
  lemma CleanReplyNoFence(raw: string)
    requires SearchFence(raw, 0).None?
    ensures CleanReply(raw) == BracketTrim(raw)
  {
    assert CleanReply(raw) == BracketTrim(Strip(Strip(raw)));
    StripThenTrim(Strip(raw));
    StripThenTrim(raw);
  }

  /** Either way the parsed text is a piece of the reply, and it is empty or
      delimited by brackets. */
  lemma CleanReplyShape(raw: string)
    ensures var r := CleanReply(raw);
      && (exists i :: SliceAt(raw, r, i))
      && (r == [] || (r[0] == '[' && r[|r| - 1] == ']'))
  {
    if SearchFence(raw, 0).Some? {
      FencedReplyShape(raw);
    } else {
      UnfencedReplyShape(raw);
    }
  }

  lemma FencedReplyShape(raw: string)
    requires SearchFence(raw, 0).Some?
    ensures var r := CleanReply(raw);
      && (exists i :: SliceAt(raw, r, i))
      && (r == [] || (r[0] == '[' && r[|r| - 1] == ']'))
  {
    var f := SearchFence(raw, 0).value;
    CleanReplyFence(raw);
    BodyShape(raw, f, CleanReply(raw));
  }

  /** A fence body is a piece of the reply delimited by brackets. */
  lemma BodyShape(raw: string, f: Fence, r: string)
    requires FenceShape(raw, f) && r == raw[f.bodyStart..f.bodyEnd]
    ensures (exists i :: SliceAt(raw, r, i)) && (r == [] || (r[0] == '[' && r[|r| - 1] == ']'))
  {
    assert SliceAt(raw, r, f.bodyStart);
  }

  lemma UnfencedReplyShape(raw: string)
    requires SearchFence(raw, 0).None?
    ensures var r := CleanReply(raw);
      && (exists i :: SliceAt(raw, r, i))
      && (r == [] || (r[0] == '[' && r[|r| - 1] == ']'))
  {
    CleanReplyNoFence(raw);
    TrimmedShape(raw, CleanReply(raw));
  }

  lemma TrimmedShape(raw: string, r: string)
    requires r == BracketTrim(raw)
    ensures (exists i :: SliceAt(raw, r, i)) && (r == [] || (r[0] == '[' && r[|r| - 1] == ']'))
  {
    BracketTrimShape(raw);
  }

  /** Prose around a bracketed payload is ignored: when the reply has no
      backticks, nothing before the payload opens a bracket and nothing
      after it closes one, exactly the payload is parsed. */
  lemma RecoverIgnoresNoise(pre: string, body: string, post: string, parse: string -> Option<seq<Json>>)
    requires |body| >= 2 && body[0] == '[' && body[|body| - 1] == ']'
    requires '[' !in pre && ']' !in post
    requires '`' !in pre + body + post
    ensures Recover(pre + body + post, parse)
         == if parse(body).Some? then Ok(parse(body).value) else Err(ParseFailed(pre + body + post))
  {
    var raw := pre + body + post;
    assert '`' !in raw;
    CleanReplyNoFence(raw);
    BodyBetweenNoise(pre, body, post);
  }

  lemma BodyBetweenNoise(pre: string, body: string, post: string)
    requires |body| >= 2 && body[0] == '[' && body[|body| - 1] == ']'
    requires '[' !in pre && ']' !in post
    ensures BracketTrim(pre + body + post) == body
  {
    var raw := pre + body + post;
    var f, l := |pre|, |pre| + |body| - 1;
    forall k | 0 <= k < f ensures raw[k] != '[' { assert raw[k] == pre[k]; }
    FirstIndexAt(raw, '[', f);
    forall k | l < k < |raw| ensures raw[k] != ']' { assert raw[k] == post[k - l - 1]; }
    LastIndexAt(raw, ']', l);
    BracketTrimSpan(raw);
    assert raw[f..l + 1] == body;
  }

  /** A reply without a `[` or without a `]` trims to the empty text, which
      JSON does not accept: recovery fails rather than yielding an empty
      list. */
  lemma RecoverNeedsBrackets(raw: string, parse: string -> Option<seq<Json>>)
    requires parse([]) == None
    requires '[' !in raw || ']' !in raw
    ensures Recover(raw, parse) == Err(ParseFailed(raw))
  {
    CleanReplyNoFence(raw);
    BracketTrimEmpty(raw);
  }

  /** `generate_ai_insights`: build the prompt, ask the model, recover the
      list. A successful result is what the parser made of the cleaned
      reply to the full prompt. */
  function GenerateAiInsights(
    input: PromptInput,
    render: Frames.DataFrame -> string,
    complete: string -> string,
    parse: string -> Option<seq<Json>>): (r: Result<seq<Json>>)
    ensures input.OtherObject? ==> r == Err(InvalidPrompt)
    ensures r.Ok? ==>
      && PromptData(input, render).Ok?
      && parse(CleanReply(complete(FullPrompt(PromptData(input, render).value)))) == Some(r.value)
    ensures input.PlainText? ==> r == Recover(complete(FullPrompt(input.text)), parse)
    ensures input.Table? ==> r == Recover(complete(FullPrompt(render(input.df))), parse)
  {
    match PromptData(input, render)
    case Err(e) => Err(e)
    case Ok(data) => Recover(complete(FullPrompt(data)), parse)
  }
}
