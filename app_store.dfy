/**
 * The application store behind the three-step wizard (send the request, filter the response, show
 * it as a table): its state fields, setters, step navigation, reset and derived values.
 */
module AppStore {
  import opened Wrappers
  import opened JsonValues
  import opened JsonKeys

  /** The wizard's steps: title and description. */
  const Steps: seq<(string, string)> := [
    ("发送请求", "输入cURL命令并发送，查看原始响应结果"),
    ("结果过滤", "使用JMESPath表达式过滤响应数据"),
    ("表格展示", "将过滤后的数据以结构化表格形式展示")
  ]

  /** The values restored from local storage; None for a missing property. */
  datatype Saved = Saved(
    curlText: Option<string>,
    error: Option<string>,
    rawData: Option<Json>,
    rawText: Option<string>,
    truncated: Option<bool>,
    nonJson: Option<bool>,
    expr: Option<string>,
    currentStep: Option<int>)

  const NothingSaved := Saved(None, None, None, None, None, None, None, None)

  /** The store's state as a value. */
  datatype State = State(
    curlText: string,
    loading: bool,
    error: string,
    rawData: Json,
    rawText: string,
    truncated: bool,
    nonJson: bool,
    expr: string,
    currentStep: int,
    extractedKeys: seq<string>)

  /** `saved || default` for strings, booleans and numbers. */
  function TextOr(v: Option<string>, default: string): string {
    if v.Some? && v.value != "" then v.value else default
  }

  function FlagOr(v: Option<bool>): bool {
    v.Some? && v.value
  }

  function StepOr(v: Option<int>): int {
    if v.Some? && v.value != 0 then v.value else 1
  }

  /** `initialData.rawData || null`: a falsy saved value (`false`, `0`, `''`) is restored as null. */
  function DataOr(v: Option<Json>): (r: Json)
    ensures Truthy(r) || r == Null
    ensures v.Some? && Truthy(v.value) ==> r == v.value
    ensures !(v.Some? && Truthy(v.value)) ==> r == Null
  {
    if v.Some? && Truthy(v.value) then v.value else Null
  }

  /** What the key watcher stores for a value: its keys for an array or object, otherwise none. */
  function KeysFor(data: Json, lc: (string, string) -> int): (r: seq<string>)
    ensures !IsObject(data) ==> r == []
    ensures NoDup(r) && DepthSorted(r)
    ensures forall p :: p in r <==> p in Paths(data, "")
  {
    if Truthy(data) && TypeofObject(data) then
      ExtractedKeys(data, lc);
      ExtractKeysSpec(data, lc)
    else
      PrimitiveNoPaths(data, "");
      []
  }

  /** The state the store starts in. */
  function Restore(saved: Saved, lc: (string, string) -> int): State {
    var rawData := DataOr(saved.rawData);
    State(TextOr(saved.curlText, ""), false, TextOr(saved.error, ""), rawData, TextOr(saved.rawText, ""),
          FlagOr(saved.truncated), FlagOr(saved.nonJson), TextOr(saved.expr, ""), StepOr(saved.currentStep),
          KeysFor(rawData, lc))
  }

  /** With nothing saved every field has its default: empty strings, false flags, no data, step 1. */
  lemma RestoreNothing(lc: (string, string) -> int)
    ensures Restore(NothingSaved, lc) == State("", false, "", Null, "", false, false, "", 1, [])
  {
  }

  /** Saved values that are truthy are restored as they are; falsy ones fall back to the defaults.
      A saved empty string and the default `''` coincide, so every saved string is restored as it is. */
  lemma RestoreValues(saved: Saved, lc: (string, string) -> int)
    ensures var s := Restore(saved, lc);
      s.curlText == saved.curlText.GetOr("") && s.error == saved.error.GetOr("") &&
      s.rawText == saved.rawText.GetOr("") && s.expr == saved.expr.GetOr("") &&
      s.truncated == (saved.truncated == Some(true)) && s.nonJson == (saved.nonJson == Some(true)) &&
      (saved.currentStep.Some? && saved.currentStep.value != 0 ==> s.currentStep == saved.currentStep.value) &&
      (saved.currentStep.None? || saved.currentStep.value == 0 ==> s.currentStep == 1) &&
      (saved.rawData.Some? && Truthy(saved.rawData.value) ==> s.rawData == saved.rawData.value) &&
      (saved.rawData.None? || !Truthy(saved.rawData.value) ==> s.rawData == Null) &&
      s.extractedKeys == KeysFor(s.rawData, lc) &&
      !s.loading
  {
  }

  /** `prevStep`: go back unless on the first step. */
  function Prev(step: int): (r: int)
    ensures step > 1 ==> r == step - 1
    ensures step <= 1 ==> r == step
  {
    if step > 1 then step - 1 else step
  }

  /** `nextStep`: go forward unless on the last step. */
  function Next(step: int): (r: int)
    ensures step < |Steps| ==> r == step + 1
    ensures step >= |Steps| ==> r == step
  {
    if step < |Steps| then step + 1 else step
  }

  datatype Move = Back | Forward

  function Walk(step: int, moves: seq<Move>): int
    decreases |moves|
  {
    if moves == [] then step
    else Walk(if moves[0].Back? then Prev(step) else Next(step), moves[1..])
  }

  /** From any of the three steps, no sequence of back and forward moves leaves them. */
  lemma {:induction false} WalkStaysInRange(step: int, moves: seq<Move>)
    requires 1 <= step <= |Steps|
    ensures 1 <= Walk(step, moves) <= |Steps|
    decreases |moves|
  {
    if moves != [] {
      WalkStaysInRange(if moves[0].Back? then Prev(step) else Next(step), moves[1..]);
    }
  }

  /** Away from the ends, going forward undoes going back and the other way round. */
  lemma PrevNextInverse(step: int)
    ensures 1 < step <= |Steps| ==> Next(Prev(step)) == step
    ensures 1 <= step < |Steps| ==> Prev(Next(step)) == step
  {
  }

  /** `query(data, expr)`: no expression means the data itself, otherwise the JMESPath search. */
  function Query(data: Json, expr: string, search: (Json, string) -> Json): (r: Json)
    ensures expr == "" ==> r == data
  {
    if expr == "" then data else search(data, expr)
  }

  /** A table row: objects (and null) are kept, any other value is wrapped as `{value: v}`. */
  function Row(v: Json): (r: Json)
    ensures TypeofObject(r)
    ensures TypeofObject(v) ==> r == v
    ensures !TypeofObject(v) ==> r == Obj([("value", v)])
  {
    if TypeofObject(v) then v else Obj([("value", v)])
  }

  /** The rows of `filteredArray`: none unless the filtered value is an array, else one per element. */
  function Rows(filtered: Json): (r: seq<Json>)
    ensures !filtered.Arr? ==> r == []
    ensures filtered.Arr? ==> |r| == |filtered.items| && forall k :: 0 <= k < |r| ==> r[k] == Row(filtered.items[k])
  {
    if filtered.Arr? then seq(|filtered.items|, k requires 0 <= k < |filtered.items| => Row(filtered.items[k])) else []
  }

  class Store {
    var curlText: string
    var loading: bool
    var error: string
    var rawData: Json
    var rawText: string
    var truncated: bool
    var nonJson: bool
    var expr: string
    var currentStep: int
    var extractedKeys: seq<string>

    /** `localeCompare`, used by the key watcher, and the JMESPath search used for filtering. */
    const lc: (string, string) -> int
    const search: (Json, string) -> Json

    function Snapshot(): State
      reads this
    {
      State(curlText, loading, error, rawData, rawText, truncated, nonJson, expr, currentStep, extractedKeys)
    }

    /** The key list is always what the watcher derives from the current data. */
    predicate Valid()
      reads this
    {
      extractedKeys == KeysFor(rawData, lc)
    }

    constructor (saved: Saved, lc: (string, string) -> int, search: (Json, string) -> Json)
      ensures Snapshot() == Restore(saved, lc) && this.lc == lc && this.search == search
      ensures Valid()
    {
      this.lc := lc;
      this.search := search;
      curlText := TextOr(saved.curlText, "");
      loading := false;
      error := TextOr(saved.error, "");
      rawData := DataOr(saved.rawData);
      rawText := TextOr(saved.rawText, "");
      truncated := FlagOr(saved.truncated);
      nonJson := FlagOr(saved.nonJson);
      expr := TextOr(saved.expr, "");
      currentStep := StepOr(saved.currentStep);
      extractedKeys := KeysFor(DataOr(saved.rawData), lc);
    }

    method SetCurlText(value: string)
      requires Valid()
      modifies this
      ensures Snapshot() == old(Snapshot()).(curlText := value) && Valid()
    {
      curlText := value;
    }

    method SetLoading(value: bool)
      requires Valid()
      modifies this
      ensures Snapshot() == old(Snapshot()).(loading := value) && Valid()
    {
      loading := value;
    }

    method SetError(value: string)
      requires Valid()
      modifies this
      ensures Snapshot() == old(Snapshot()).(error := value) && Valid()
    {
      error := value;
    }

    /** Setting the data also runs the key watcher; on step 1 the wizard may then advance exactly
        when there is data or text. */
    method SetRawData(value: Json)
      modifies this
      ensures Snapshot() == old(Snapshot()).(rawData := value, extractedKeys := KeysFor(value, lc)) && Valid()
      ensures HasData() <==> value != Null || rawText != ""
      ensures currentStep == 1 ==> (CanGoNext() <==> value != Null || rawText != "")
    {
      rawData := value;
      extractedKeys := KeysFor(value, lc);
    }

    /** On step 1 the wizard may then advance exactly when there is data or the text is non-empty. */
    method SetRawText(value: string)
      requires Valid()
      modifies this
      ensures Snapshot() == old(Snapshot()).(rawText := value) && Valid()
      ensures HasData() <==> rawData != Null || value != ""
      ensures currentStep == 1 ==> (CanGoNext() <==> rawData != Null || value != "")
    {
      rawText := value;
    }

    method SetTruncated(value: bool)
      requires Valid()
      modifies this
      ensures Snapshot() == old(Snapshot()).(truncated := value) && Valid()
    {
      truncated := value;
    }

    method SetNonJson(value: bool)
      requires Valid()
      modifies this
      ensures Snapshot() == old(Snapshot()).(nonJson := value) && Valid()
    {
      nonJson := value;
    }

    method SetExpr(value: string)
      requires Valid()
      modifies this
      ensures Snapshot() == old(Snapshot()).(expr := value) && Valid()
    {
      expr := value;
    }

    /** Unchecked: any step number is accepted. */
    method SetCurrentStep(value: int)
      requires Valid()
      modifies this
      ensures Snapshot() == old(Snapshot()).(currentStep := value) && Valid()
    {
      currentStep := value;
    }

    method PrevStep()
      requires Valid()
      modifies this
      ensures Snapshot() == old(Snapshot()).(currentStep := Prev(old(currentStep))) && Valid()
    {
      if currentStep > 1 {
        currentStep := currentStep - 1;
      }
    }

    method NextStep()
      requires Valid()
      modifies this
      ensures Snapshot() == old(Snapshot()).(currentStep := Next(old(currentStep))) && Valid()
    {
      if currentStep < |Steps| {
        currentStep := currentStep + 1;
      }
    }

    /** Clears the response state; the command, the expression and the step are kept. Afterwards
        there is no data, so the wizard cannot leave step 1, nor step 2 while there is no expression. */
    method ResetData()
      requires Valid()
      modifies this
      ensures Snapshot() == old(Snapshot()).(error := "", truncated := false, nonJson := false, rawData := Null, rawText := "", extractedKeys := [])
      ensures Valid() && !HasData()
      ensures currentStep == 1 ==> !CanGoNext()
      ensures currentStep == 2 && expr == "" ==> !CanGoNext()
    {
      error := "";
      truncated := false;
      nonJson := false;
      rawData := Null;
      extractedKeys := [];
      rawText := "";
    }

    /** The filtered value: the raw text when the response was not JSON, else the parsed data. */
    function Filtered(): (r: Json)
      reads this
      ensures expr == "" ==> r == (if nonJson then Str(rawText) else rawData)
    {
      Query(if nonJson then Str(rawText) else rawData, expr, search)
    }

    function HasData(): bool
      reads this
    {
      rawData != Null || rawText != ""
    }

    function HasFiltered(): bool
      reads this
    {
      Filtered() != Null
    }

    function IsArray(): bool
      reads this
    {
      Filtered().Arr?
    }

    /** The table rows: every row is an object (or null) and an array keeps its length. */
    function FilteredArray(): (r: seq<Json>)
      reads this
      ensures forall k :: 0 <= k < |r| ==> TypeofObject(r[k])
      ensures |r| == if IsArray() then |Filtered().items| else 0
    {
      Rows(Filtered())
    }

    /** Whether the wizard may advance: with data on step 1, with a filtered value on step 2, never
        from step 3, always on any other step number. */
    function CanGoNext(): bool
      reads this
    {
      if currentStep == 1 then HasData()
      else if currentStep == 2 then HasFiltered()
      else if currentStep == 3 then false
      else true
    }
  }

  /** On the wizard's own steps the gate agrees with `nextStep`: where the wizard may advance, `nextStep`
      moves forward, and where `nextStep` would stay put (the last step), the wizard may not advance. */
  lemma GateMatchesNext(store: Store)
    requires 1 <= store.currentStep <= |Steps|
    ensures store.CanGoNext() ==> Next(store.currentStep) == store.currentStep + 1
    ensures Next(store.currentStep) == store.currentStep ==> !store.CanGoNext()
  {
  }
}
