/**
 Template inputs of the virtbench commands: resolving their values from the command line, the plan
 and the defaults, and making every explicit flag agree with the value used for rendering.
 */
module Templates {
  import opened Core
  import opened Arguments

  datatype Value = Count(n: int) | Words(text: string)

  datatype Input = Input(key: string, flag: string, fallback: Value, omitDefaultFlag: bool)

  // ---- decimal numbers ----------------------------------------------------------------------

  predicate IsDigit(c: char)
  {
    '0' <= c <= '9'
  }

  function Digit(d: nat): (c: char)
    requires d < 10
    ensures IsDigit(c) && Weight(c) == d
  {
    ('0' as int + d) as char
  }

  function Weight(c: char): nat
    requires IsDigit(c)
  {
    c as int - '0' as int
  }

  function Decimal(n: nat): string
  {
    if n < 10 then [Digit(n)] else Decimal(n / 10) + [Digit(n % 10)]
  }

  /** A non-empty run of digits. */
  function Digits(s: string): Option<nat>
  {
    if s == "" || !IsDigit(s[|s| - 1]) then None
    else if |s| == 1 then Some(Weight(s[0]))
    else match Digits(s[..|s| - 1])
         case Some(n) => Some(10 * n + Weight(s[|s| - 1]))
         case None => None
  }

  /** `strconv.Atoi`, on unbounded integers. */
  function Atoi(s: string): Option<int>
  {
    var signed := s != "" && (s[0] == '-' || s[0] == '+');
    match Digits(if signed then s[1..] else s)
    case Some(n) =>
      var magnitude: int := n;
      Some(if signed && s[0] == '-' then -magnitude else magnitude)
    case None => None
  }

  /** `fmt.Sprint` of a value. */
  function Sprint(value: Value): string
  {
    match value
    case Words(text) => text
    case Count(n) => if n < 0 then "-" + Decimal(-n) else Decimal(n)
  }

  lemma DigitsSnoc(s: string, n: nat, d: nat)
    requires Digits(s) == Some(n) && d < 10
    ensures Digits(s + [Digit(d)]) == Some(10 * n + d)
  {
    assert (s + [Digit(d)])[..|s|] == s;
  }

  lemma {:induction false} DigitsOfDecimal(n: nat)
    ensures Digits(Decimal(n)) == Some(n) && IsDigit(Decimal(n)[0])
  {
    if n >= 10 {
      DigitsOfDecimal(n / 10);
      DigitsSnoc(Decimal(n / 10), n / 10, n % 10);
    }
  }

  lemma AtoiOfSprint(n: int)
    ensures Atoi(Sprint(Count(n))) == Some(n)
  {
    var magnitude: nat := if n < 0 then -n else n;
    DigitsOfDecimal(magnitude);
    if n < 0 {
      assert Sprint(Count(n))[1..] == Decimal(magnitude);
    }
  }

  // ---- inputs -----------------------------------------------------------------------------------

  function CommonInputs(name: string): seq<Input>
  {
    [Input("VM_NAME", "--vm-name", Words(name), false),
     Input("STORAGE_CLASS_NAME", "--storage-class", Words(""), false),
     Input("VM_PASSWORD", "--vm-password", Words("changeme"), true),
     Input("DATASOURCE_NAME", "--datasource-name", Words(""), true),
     Input("DATASOURCE_NAMESPACE", "--datasource-namespace", Words("openshift-virtualization-os-images"), true)]
  }

  const FIO_INPUTS: seq<Input> :=
    [Input("FIO_RUNTIME", "--fio-runtime", Count(600), false),
     Input("FIO_BS", "--fio-bs", Words("4k"), false),
     Input("FIO_RW", "--fio-rw", Words("randrw"), false),
     Input("FIO_IODEPTH", "--fio-iodepth", Count(64), false),
     Input("FIO_NUMJOBS", "--fio-numjobs", Count(4), false),
     Input("FIO_SIZE", "--fio-size", Words("10G"), false)]

  function TemplateInputs(command: string): seq<Input>
  {
    if command == "fio" then CommonInputs("fio-vm") + FIO_INPUTS
    else if command == "disk-ops" then CommonInputs("disk-ops-vm")
    else CommonInputs("rhel-9-vm")
  }

  ghost predicate DistinctTexts(texts: seq<string>)
  {
    forall i, j :: 0 <= i < j < |texts| ==> texts[i] != texts[j]
  }

  function Keys(inputs: seq<Input>): seq<string>
  {
    seq(|inputs|, i requires 0 <= i < |inputs| => inputs[i].key)
  }

  function Flags(inputs: seq<Input>): seq<string>
  {
    seq(|inputs|, i requires 0 <= i < |inputs| => inputs[i].flag)
  }

  /** A default a flag can carry. */
  predicate ProperInput(input: Input)
  {
    && IsFlag(input.flag) && IsValue(Sprint(input.fallback))
    && (input.fallback.Count? ==> input.fallback.n >= 1)
  }

  /** Distinct keys and flags, and proper defaults. */
  ghost predicate Proper(inputs: seq<Input>)
  {
    && DistinctTexts(Keys(inputs)) && DistinctTexts(Flags(inputs))
    && forall i :: 0 <= i < |inputs| ==> ProperInput(inputs[i])
  }

  lemma CountsAreValues(n: nat)
    ensures IsValue(Sprint(Count(n)))
  {
    DigitsOfDecimal(n);
  }

  /** Length and last character tell the names of the inputs apart. */
  function Signature(s: string): int
  {
    if s == "" then 0 else 1000 * |s| + s[|s| - 1] as int % 1000
  }

  lemma SignaturesTell(texts: seq<string>, signatures: seq<int>)
    requires |texts| == |signatures|
    requires forall i :: 0 <= i < |texts| ==> Signature(texts[i]) == signatures[i]
    requires forall i, j :: 0 <= i < j < |signatures| ==> signatures[i] != signatures[j]
    ensures DistinctTexts(texts)
  {
    forall i, j | 0 <= i < j < |texts| ensures texts[i] != texts[j] {
      assert Signature(texts[i]) != Signature(texts[j]);
    }
  }

  lemma CommonKeysDistinct(name: string)
    ensures DistinctTexts(Keys(CommonInputs(name)))
  {
    SignaturesTell(Keys(CommonInputs(name)), [7069, 18069, 11068, 15069, 20069]);
  }

  lemma CommonFlagsDistinct(name: string)
    ensures DistinctTexts(Flags(CommonInputs(name)))
  {
    SignaturesTell(Flags(CommonInputs(name)), [9101, 15115, 13100, 17101, 22101]);
  }

  lemma FioKeysDistinct()
    ensures DistinctTexts(Keys(FIO_INPUTS))
  {
    SignaturesTell(Keys(FIO_INPUTS), [11069, 6083, 6087, 11072, 11083, 8069]);
  }

  lemma FioFlagsDistinct()
    ensures DistinctTexts(Flags(FIO_INPUTS))
  {
    SignaturesTell(Flags(FIO_INPUTS), [13101, 8115, 8119, 13104, 13115, 10101]);
  }

  /** One character tells the names of two lists apart. */
  lemma CharacterTells(a: seq<string>, b: seq<string>, at: nat, c: char)
    requires DistinctTexts(a) && DistinctTexts(b)
    requires forall i :: 0 <= i < |a| ==> at < |a[i]| && a[i][at] != c
    requires forall i :: 0 <= i < |b| ==> at < |b[i]| && b[i][at] == c
    ensures DistinctTexts(a + b)
  {
  }

  lemma KeysJoin(a: seq<Input>, b: seq<Input>)
    ensures Keys(a + b) == Keys(a) + Keys(b) && Flags(a + b) == Flags(a) + Flags(b)
  {
  }

  lemma FioAllDistinct()
    ensures DistinctTexts(Keys(TemplateInputs("fio"))) && DistinctTexts(Flags(TemplateInputs("fio")))
  {
    var common := CommonInputs("fio-vm");
    KeysJoin(common, FIO_INPUTS);
    CommonKeysDistinct("fio-vm");
    CommonFlagsDistinct("fio-vm");
    FioKeysDistinct();
    FioFlagsDistinct();
    CharacterTells(Keys(common), Keys(FIO_INPUTS), 0, 'F');
    CharacterTells(Flags(common), Flags(FIO_INPUTS), 2, 'f');
  }

  lemma Undashed(s: string)
    requires s == "" || s[0] != '-'
    ensures IsValue(s)
  {
  }

  lemma ProperWords(input: Input)
    requires |input.flag| > 2 && input.flag[0] == input.flag[1] == '-' && '=' !in input.flag
    requires input.fallback.Words? && (input.fallback.text == "" || input.fallback.text[0] != '-')
    ensures ProperInput(input)
  {
    Undashed(input.fallback.text);
    assert input.flag[..2] == DASHES;
  }

  lemma ProperCount(input: Input)
    requires |input.flag| > 2 && input.flag[0] == input.flag[1] == '-' && '=' !in input.flag
    requires input.fallback.Count? && input.fallback.n >= 1
    ensures ProperInput(input)
  {
    CountsAreValues(input.fallback.n);
    assert input.flag[..2] == DASHES;
  }

  lemma CommonEachProper(name: string)
    requires name != "" && name[0] != '-'
    ensures forall i :: 0 <= i < 5 ==> ProperInput(CommonInputs(name)[i])
  {
    var inputs := CommonInputs(name);
    ProperWords(inputs[0]);
    ProperWords(inputs[1]);
    ProperWords(inputs[2]);
    ProperWords(inputs[3]);
    ProperWords(inputs[4]);
  }

  lemma FioEachProper()
    ensures forall i :: 0 <= i < 6 ==> ProperInput(FIO_INPUTS[i])
  {
    ProperCount(FIO_INPUTS[0]);
    ProperWords(FIO_INPUTS[1]);
    ProperWords(FIO_INPUTS[2]);
    ProperCount(FIO_INPUTS[3]);
    ProperCount(FIO_INPUTS[4]);
    ProperWords(FIO_INPUTS[5]);
  }

  lemma FioIsProper()
    ensures Proper(TemplateInputs("fio"))
  {
    FioAllDistinct();
    CommonEachProper("fio-vm");
    FioEachProper();
    var inputs := TemplateInputs("fio");
    forall i | 0 <= i < |inputs| ensures ProperInput(inputs[i]) {
      assert inputs[i] == if i < 5 then CommonInputs("fio-vm")[i] else FIO_INPUTS[i - 5];
    }
  }

  lemma CommandsAreProper(command: string)
    ensures Proper(TemplateInputs(command))
  {
    if command == "fio" {
      FioIsProper();
    } else {
      var name := if command == "disk-ops" then "disk-ops-vm" else "rhel-9-vm";
      CommonKeysDistinct(name);
      CommonFlagsDistinct(name);
      CommonEachProper(name);
    }
  }

  // ---- resolving --------------------------------------------------------------------------------

  predicate SingleLine(raw: string)
  {
    raw != "" && '\r' !in raw && '\n' !in raw
  }

  /** What an input takes from a flag's text. */
  function FromText(input: Input, raw: string): Option<Value>
  {
    match input.fallback
    case Count(_) =>
      (match Atoi(raw)
       case Some(n) => if n < 1 then None else Some(Count(n))
       case None => None)
    case Words(_) => if SingleLine(raw) then Some(Words(raw)) else None
  }

  /** The number a row of digits stands for. */
  predicate Stands(s: string, n: nat)
  {
    s != "" && '0' <= s[|s| - 1] <= '9' &&
    var d := s[|s| - 1] as int - '0' as int;
    if |s| == 1 then n == d else n % 10 == d && Stands(s[..|s| - 1], n / 10)
  }

  lemma {:induction false} DigitsExactly(s: string, n: nat)
    ensures Digits(s) == Some(n) <==> Stands(s, n)
  {
    if s != "" && IsDigit(s[|s| - 1]) && |s| > 1 {
      DigitsExactly(s[..|s| - 1], n / 10);
      var d := Weight(s[|s| - 1]);
      match Digits(s[..|s| - 1])
      case Some(m) => assert 10 * m + d == n <==> m == n / 10 && d == n % 10;
      case None =>
    }
  }

  /** What parses: digits, with at most one sign in front that decides the sign. */
  lemma AtoiExactly(s: string, n: int)
    ensures Atoi(s) == Some(n) <==>
            if s != "" && s[0] == '-' then n <= 0 && Stands(s[1..], -n)
            else n >= 0 && Stands(if s != "" && s[0] == '+' then s[1..] else s, n)
  {
    var digits := if s != "" && s[0] in "-+" then s[1..] else s;
    if n <= 0 {
      DigitsExactly(digits, -n);
    }
    if n >= 0 {
      DigitsExactly(digits, n);
    }
  }

  /** What a flag's text is worth: a count is a whole number from 1 on, a text any non-empty single line. */
  lemma FromTextMeans(input: Input, raw: string, value: Value)
    ensures input.fallback.Count? ==>
              (FromText(input, raw) == Some(value) <==> value.Count? && value.n >= 1 && Atoi(raw) == Some(value.n))
    ensures input.fallback.Words? ==>
              (FromText(input, raw) == Some(value) <==>
                 value == Words(raw) && raw != "" && forall i :: 0 <= i < |raw| ==> raw[i] != '\r' && raw[i] != '\n')
  {
  }

  function ResolveOne(input: Input, args: seq<string>): Option<Value>
  {
    match Get(args, input.flag)
    case Some(raw) => FromText(input, raw)
    case None => Some(input.fallback)
  }

  /** All inputs resolved, or nothing: one bad flag fails the whole. */
  ghost predicate Resolves(inputs: seq<Input>, args: seq<string>, result: Option<map<string, Value>>)
  {
    match result
    case Some(values) => AllResolved(inputs, args, values)
    case None => exists i :: 0 <= i < |inputs| && ResolveOne(inputs[i], args) == None
  }

  ghost predicate AllResolved(inputs: seq<Input>, args: seq<string>, values: map<string, Value>)
  {
    && (forall key :: key in values <==> key in Keys(inputs))
    && (forall i :: 0 <= i < |inputs| ==> ResolvedIn(inputs[i], args, values))
  }

  ghost predicate ResolvedIn(input: Input, args: seq<string>, values: map<string, Value>)
  {
    input.key in values && ResolveOne(input, args) == Some(values[input.key])
  }

  lemma ResolvedNext(inputs: seq<Input>, args: seq<string>, values: map<string, Value>, input: Input, value: Value)
    requires AllResolved(inputs, args, values) && input.key !in Keys(inputs)
    requires ResolveOne(input, args) == Some(value)
    ensures AllResolved(inputs + [input], args, values[input.key := value])
  {
    var all, now := inputs + [input], values[input.key := value];
    assert Keys(all) == Keys(inputs) + [input.key];
    forall i | 0 <= i < |all| ensures ResolvedIn(all[i], args, now) {
      if i < |inputs| {
        assert ResolvedIn(inputs[i], args, values);
        assert Keys(inputs)[i] == inputs[i].key;
      }
    }
  }

  lemma LaterKeyIsNew(inputs: seq<Input>, n: nat)
    requires Proper(inputs) && n < |inputs|
    ensures inputs[n].key !in Keys(inputs[..n]) && inputs[n].flag !in Flags(inputs[..n])
  {
    forall i | 0 <= i < n ensures Keys(inputs[..n])[i] != inputs[n].key && Flags(inputs[..n])[i] != inputs[n].flag {
      assert Keys(inputs)[i] != Keys(inputs)[n] && Flags(inputs)[i] != Flags(inputs)[n];
    }
  }

  method ResolveTemplateValues(inputs: seq<Input>, args: seq<string>) returns (result: Option<map<string, Value>>)
    requires Proper(inputs)
    ensures Resolves(inputs, args, result)
  {
    var values: map<string, Value> := map[];
    for n := 0 to |inputs|
      invariant AllResolved(inputs[..n], args, values)
    {
      var input := inputs[n];
      var value := input.fallback;
      var raw := Argument(args, input.flag);
      if raw.Some? {
        if value.Count? {
          var parsed := Atoi(raw.value);
          if parsed == None || parsed.value < 1 {
            return None;
          }
          value := Count(parsed.value);
        } else {
          if raw.value == "" || '\r' in raw.value || '\n' in raw.value {
            return None;
          }
          value := Words(raw.value);
        }
      }
      LaterKeyIsNew(inputs, n);
      ResolvedNext(inputs[..n], args, values, input, value);
      assert inputs[..n + 1] == inputs[..n] + [input];
      values := values[input.key := value];
    }
    assert inputs[..|inputs|] == inputs;
    result := Some(values);
  }

  // ---- the plan ---------------------------------------------------------------------------------

  /** The plan's parameters as arguments; `plan` maps a flag to the printed parameter. */
  function PlanArgs(inputs: seq<Input>, plan: map<string, string>): seq<string>
  {
    if inputs == [] then []
    else
      var last := inputs[|inputs| - 1].flag;
      PlanArgs(inputs[..|inputs| - 1], plan) + if last in plan then [last, plan[last]] else []
  }

  method PlanTemplateArgs(inputs: seq<Input>, plan: map<string, string>) returns (args: seq<string>)
    ensures args == PlanArgs(inputs, plan)
  {
    args := [];
    for n := 0 to |inputs|
      invariant args == PlanArgs(inputs[..n], plan)
    {
      assert inputs[..n + 1][..n] == inputs[..n];
      if inputs[n].flag in plan {
        args := args + [inputs[n].flag, plan[inputs[n].flag]];
      }
    }
    assert inputs[..|inputs|] == inputs;
  }

  function Given(inputs: seq<Input>, plan: map<string, string>, flag: string): Option<string>
  {
    if flag in plan && flag in Flags(inputs) then Some(plan[flag]) else None
  }

  lemma GivenSnoc(inputs: seq<Input>, plan: map<string, string>, flag: string)
    requires Proper(inputs) && inputs != []
    ensures var init, last := inputs[..|inputs| - 1], inputs[|inputs| - 1].flag;
            && Given(inputs, plan, flag) == (if last == flag && last in plan then Some(plan[last]) else Given(init, plan, flag))
            && (last == flag ==> Given(init, plan, flag) == None)
            && Proper(init)
  {
    var n := |inputs| - 1;
    LaterKeyIsNew(inputs, n);
    assert Flags(inputs) == Flags(inputs[..n]) + [inputs[n].flag];
    assert Keys(inputs[..n]) == Keys(inputs)[..n] && Flags(inputs[..n]) == Flags(inputs)[..n];
  }

  /** No parameter of the plan prints as something that looks like a flag. */
  ghost predicate PlainPlan(plan: map<string, string>)
  {
    forall flag :: flag in plan ==> IsValue(plan[flag])
  }

  lemma AppendedIsGot(args: seq<string>, flag: string, value: string)
    requires IsFlag(flag) && IsValue(value) && Get(args, flag) == None
    ensures Get(args + [flag, value], flag) == Some(value)
  {
    GetMeaning(args, flag);
    SetMeaning(args, flag, value, 0);
    FormMeaning(args, flag, 0);
    GetAfterSet(args, flag, value);
  }

  lemma {:induction false} PlanIsGot(inputs: seq<Input>, plan: map<string, string>, flag: string)
    requires Proper(inputs) && PlainPlan(plan) && IsFlag(flag)
    ensures Get(PlanArgs(inputs, plan), flag) == Given(inputs, plan, flag)
    ensures WellFormed(PlanArgs(inputs, plan), flag)
  {
    if inputs != [] {
      var init, last := inputs[..|inputs| - 1], inputs[|inputs| - 1].flag;
      GivenSnoc(inputs, plan, flag);
      PlanIsGot(init, plan, flag);
      assert ProperInput(inputs[|inputs| - 1]);
      var before := PlanArgs(init, plan);
      assert before + [] == before;
      if last in plan {
        if last == flag {
          AppendedIsGot(before, flag, plan[flag]);
        } else {
          AppendKeepsOthers(before, last, plan[last], flag);
          SameGet(before, before + [last, plan[last]], flag);
        }
        AppendKeepsWellFormed(before, last, plan[last], flag);
      }
    }
  }

  lemma AppendKeepsWellFormed(args: seq<string>, f: string, value: string, g: string)
    requires IsFlag(f) && IsFlag(g) && IsValue(value) && WellFormed(args, g)
    ensures WellFormed(args + [f, value], g)
  {
    var after := args + [f, value];
    ValueIsNoFlag(value, g);
    forall i | 0 <= i < |after| && after[i] == g ensures i + 1 < |after| && IsValue(after[i + 1]) {
      if i < |args| {
        assert after[i] == args[i] && after[i + 1] == args[i + 1];
      }
    }
  }

  /** Earlier arguments win: the command line over the plan. */
  lemma {:induction false} EarlierWins(args: seq<string>, more: seq<string>, flag: string, from: nat)
    requires WellFormed(args, flag) && from <= |args|
    ensures Get(args + more, flag, from)
         == if Get(args, flag, from).Some? then Get(args, flag, from) else Get(more, flag)
    decreases |args| - from
  {
    var all := args + more;
    if from < |args| {
      assert all[from] == args[from];
      assert from + 1 < |args| ==> all[from + 1] == args[from + 1];
      if !Occurs(args, from, flag) {
        EarlierWins(args, more, flag, from + 1);
      }
    } else {
      GetBehind(args, more, flag, 0);
    }
  }

  lemma {:induction false} GetBehind(args: seq<string>, more: seq<string>, flag: string, n: nat)
    ensures Get(args + more, flag, |args| + n) == Get(more, flag, n)
    decreases |more| - n
  {
    var all := args + more;
    if n < |more| {
      assert all[|args| + n] == more[n];
      assert n + 1 < |more| ==> all[|args| + n + 1] == more[n + 1];
      GetBehind(args, more, flag, n + 1);
    }
  }

  // ---- filling ----------------------------------------------------------------------------------

  /** The text a flag carries stands for the value used for rendering: numerically, for a count. */
  predicate ReadsAs(text: string, value: Value)
  {
    match value
    case Count(n) => Atoi(text) == Some(n)
    case Words(words) => text == words
  }

  /** After filling: the flag reads back the rendered value, or is absent because that value is empty. */
  ghost predicate Agrees(args: seq<string>, flag: string, value: Value)
  {
    match Get(args, flag)
    case Some(text) => ReadsAs(text, value)
    case None => value == Words("")
  }

  /** Which source an input's value comes from: command line, then plan, then default. */
  function Precedence(input: Input, args: seq<string>, inputs: seq<Input>, plan: map<string, string>): Option<Value>
  {
    if Get(args, input.flag).Some? then FromText(input, Get(args, input.flag).value)
    else if Given(inputs, plan, input.flag).Some? then FromText(input, Given(inputs, plan, input.flag).value)
    else Some(input.fallback)
  }

  lemma ResolvedByPrecedence(input: Input, args: seq<string>, inputs: seq<Input>, plan: map<string, string>)
    requires Proper(inputs) && PlainPlan(plan) && IsFlag(input.flag) && WellFormed(args, input.flag)
    ensures ResolveOne(input, args + PlanArgs(inputs, plan)) == Precedence(input, args, inputs, plan)
  {
    EarlierWins(args, PlanArgs(inputs, plan), input.flag, 0);
    PlanIsGot(inputs, plan, input.flag);
  }

  /** The arguments with every missing, explicit, non-empty input appended. */
  function Fill(args: seq<string>, inputs: seq<Input>, values: map<string, Value>): seq<string>
    requires forall i :: 0 <= i < |inputs| ==> inputs[i].key in values
  {
    if inputs == [] then args
    else
      var before, last := Fill(args, inputs[..|inputs| - 1], values), inputs[|inputs| - 1];
      if last.omitDefaultFlag || Get(before, last.flag).Some? || Sprint(values[last.key]) == "" then before
      else before + [last.flag, Sprint(values[last.key])]
  }

  /** What filling appends for a flag. */
  function Filled(inputs: seq<Input>, values: map<string, Value>, flag: string): Option<string>
    requires forall i :: 0 <= i < |inputs| ==> inputs[i].key in values
  {
    if inputs == [] then None
    else
      var last := inputs[|inputs| - 1];
      if last.flag == flag && !last.omitDefaultFlag && Sprint(values[last.key]) != "" then Some(Sprint(values[last.key]))
      else Filled(inputs[..|inputs| - 1], values, flag)
  }

  /** What is appended can stand behind a flag. */
  ghost predicate Carriable(args: seq<string>, inputs: seq<Input>, values: map<string, Value>)
    requires forall i :: 0 <= i < |inputs| ==> inputs[i].key in values
  {
    forall i :: 0 <= i < |inputs| && Get(args, inputs[i].flag) == None ==> IsValue(Sprint(values[inputs[i].key]))
  }

  lemma {:induction false} NothingFilled(inputs: seq<Input>, values: map<string, Value>, flag: string)
    requires forall i :: 0 <= i < |inputs| ==> inputs[i].key in values
    requires flag !in Flags(inputs)
    ensures Filled(inputs, values, flag) == None
  {
    if inputs != [] {
      assert Flags(inputs)[|inputs| - 1] == inputs[|inputs| - 1].flag;
      assert Flags(inputs) == Flags(inputs[..|inputs| - 1]) + [inputs[|inputs| - 1].flag];
      NothingFilled(inputs[..|inputs| - 1], values, flag);
    }
  }

  lemma {:induction false} FillMeaning(args: seq<string>, inputs: seq<Input>, values: map<string, Value>, flag: string)
    requires forall i :: 0 <= i < |inputs| ==> inputs[i].key in values
    requires Proper(inputs) && Carriable(args, inputs, values)
    requires IsFlag(flag) && WellFormed(args, flag)
    requires forall i :: 0 <= i < |inputs| ==> WellFormed(args, inputs[i].flag)
    ensures WellFormed(Fill(args, inputs, values), flag)
    ensures Get(Fill(args, inputs, values), flag)
         == if Get(args, flag).Some? then Get(args, flag) else Filled(inputs, values, flag)
  {
    if inputs != [] {
      var init, last := inputs[..|inputs| - 1], inputs[|inputs| - 1];
      GivenSnoc(inputs, map[], flag);
      LaterKeyIsNew(inputs, |inputs| - 1);
      NothingFilled(init, values, last.flag);
      assert ProperInput(last);
      FillMeaning(args, init, values, flag);
      FillMeaning(args, init, values, last.flag);
      var before, text := Fill(args, init, values), Sprint(values[last.key]);
      if !last.omitDefaultFlag && Get(before, last.flag) == None && text != "" {
        AppendKeepsWellFormed(before, last.flag, text, flag);
        if last.flag == flag {
          AppendedIsGot(before, flag, text);
        } else {
          AppendKeepsOthers(before, last.flag, text, flag);
          SameGet(before, before + [last.flag, text], flag);
        }
      }
    }
  }

  lemma {:induction false} FilledIs(inputs: seq<Input>, values: map<string, Value>, i: nat)
    requires forall k :: 0 <= k < |inputs| ==> inputs[k].key in values
    requires Proper(inputs) && i < |inputs| && !inputs[i].omitDefaultFlag
    ensures Filled(inputs, values, inputs[i].flag)
         == if Sprint(values[inputs[i].key]) != "" then Some(Sprint(values[inputs[i].key])) else None
  {
    var init, last := inputs[..|inputs| - 1], inputs[|inputs| - 1];
    GivenSnoc(inputs, map[], last.flag);
    LaterKeyIsNew(inputs, |inputs| - 1);
    if i == |inputs| - 1 {
      NothingFilled(init, values, last.flag);
    } else {
      FilledIs(init, values, i);
      assert Flags(inputs)[i] != Flags(inputs)[|inputs| - 1];
    }
  }

  /** The input conditions of the filling theorem: every input's flag has a value, and the plan prints plainly. */
  ghost predicate Clean(inputs: seq<Input>, args: seq<string>, plan: map<string, string>)
  {
    PlainPlan(plan) && forall i :: 0 <= i < |inputs| ==> WellFormed(args, inputs[i].flag)
  }

  /** Values appended come from the plan or the defaults, so they never look like flags. */
  lemma ResolvedIsCarriable(inputs: seq<Input>, args: seq<string>, plan: map<string, string>, values: map<string, Value>)
    requires Proper(inputs) && Clean(inputs, args, plan)
    requires AllResolved(inputs, args + PlanArgs(inputs, plan), values)
    ensures forall i :: 0 <= i < |inputs| ==> inputs[i].key in values
    ensures Carriable(args, inputs, values)
  {
    forall i | 0 <= i < |inputs|
      ensures inputs[i].key in values
      ensures Get(args, inputs[i].flag) == None ==> IsValue(Sprint(values[inputs[i].key]))
    {
      var input := inputs[i];
      assert ProperInput(input) && ResolvedIn(input, args + PlanArgs(inputs, plan), values);
      ResolvedByPrecedence(input, args, inputs, plan);
      if values[input.key].Count? && values[input.key].n >= 0 {
        CountsAreValues(values[input.key].n);
      }
    }
  }

  /** What the flag of one input reads back after filling. */
  lemma FilledAgrees(inputs: seq<Input>, args: seq<string>, plan: map<string, string>, values: map<string, Value>, i: nat)
    requires Proper(inputs) && Clean(inputs, args, plan) && i < |inputs| && !inputs[i].omitDefaultFlag
    requires AllResolved(inputs, args + PlanArgs(inputs, plan), values)
    ensures forall k :: 0 <= k < |inputs| ==> inputs[k].key in values
    ensures Agrees(Fill(args, inputs, values), inputs[i].flag, values[inputs[i].key])
    ensures Some(values[inputs[i].key]) == Precedence(inputs[i], args, inputs, plan)
  {
    var input := inputs[i];
    ResolvedIsCarriable(inputs, args, plan, values);
    assert ProperInput(input) && ResolvedIn(input, args + PlanArgs(inputs, plan), values);
    ResolvedByPrecedence(input, args, inputs, plan);
    FillMeaning(args, inputs, values, input.flag);
    FilledIs(inputs, values, i);
    var value := values[input.key];
    if value.Count? {
      AtoiOfSprint(value.n);
      DigitsOfDecimal(if value.n < 0 then -value.n else value.n);
    }
  }

  /** The flag-filling part of preparing a manifest: `None` when an input does not resolve. */
  method FillArguments(inputs: seq<Input>, args: seq<string>, plan: map<string, string>)
    returns (filled: Option<seq<string>>, values: map<string, Value>)
    requires Proper(inputs)
    ensures filled == None <==> exists i :: 0 <= i < |inputs| && ResolveOne(inputs[i], args + PlanArgs(inputs, plan)) == None
    ensures filled.Some? ==> args <= filled.value
    ensures filled.Some? && Clean(inputs, args, plan) ==> FilledWell(inputs, args, plan, filled.value, values)
  {
    var planned := PlanTemplateArgs(inputs, plan);
    var resolved := ResolveTemplateValues(inputs, args + planned);
    if resolved == None {
      return None, map[];
    }
    values := resolved.value;
    NoneFailed(inputs, args + planned, values);
    var list := AppendMissing(inputs, args, values);
    filled := Some(list);
    if Clean(inputs, args, plan) {
      AllFilledWell(inputs, args, plan, values);
    }
  }

  method AppendMissing(inputs: seq<Input>, args: seq<string>, values: map<string, Value>) returns (list: seq<string>)
    requires forall i :: 0 <= i < |inputs| ==> inputs[i].key in values
    ensures list == Fill(args, inputs, values) && args <= list
  {
    list := args;
    for n := 0 to |inputs|
      invariant list == Fill(args, inputs[..n], values) && args <= list
    {
      assert inputs[..n + 1][..n] == inputs[..n];
      if inputs[n].omitDefaultFlag {
        continue;
      }
      var present := Argument(list, inputs[n].flag);
      if present == None {
        var value := Sprint(values[inputs[n].key]);
        if value != "" {
          list := list + [inputs[n].flag, value];
        }
      }
    }
    assert inputs[..|inputs|] == inputs;
  }

  lemma NoneFailed(inputs: seq<Input>, args: seq<string>, values: map<string, Value>)
    requires AllResolved(inputs, args, values)
    ensures forall i :: 0 <= i < |inputs| ==> inputs[i].key in values && ResolveOne(inputs[i], args) != None
  {
    forall i | 0 <= i < |inputs| ensures inputs[i].key in values && ResolveOne(inputs[i], args) != None {
      assert ResolvedIn(inputs[i], args, values);
    }
  }

  /** Every explicit flag reads back the value used for rendering, taken in order of precedence; other flags keep theirs. */
  ghost predicate FilledWell(inputs: seq<Input>, args: seq<string>, plan: map<string, string>,
                             filled: seq<string>, values: map<string, Value>)
  {
    && (forall i :: 0 <= i < |inputs| && !inputs[i].omitDefaultFlag ==>
          ReadsBack(inputs[i], args, inputs, plan, filled, values))
    && (forall flag :: IsFlag(flag) && flag !in Flags(inputs) && WellFormed(args, flag) ==> Get(filled, flag) == Get(args, flag))
  }

  ghost predicate ReadsBack(input: Input, args: seq<string>, inputs: seq<Input>, plan: map<string, string>,
                            filled: seq<string>, values: map<string, Value>)
  {
    && input.key in values
    && Some(values[input.key]) == Precedence(input, args, inputs, plan)
    && Agrees(filled, input.flag, values[input.key])
  }

  lemma AllFilledWell(inputs: seq<Input>, args: seq<string>, plan: map<string, string>, values: map<string, Value>)
    requires Proper(inputs) && Clean(inputs, args, plan)
    requires AllResolved(inputs, args + PlanArgs(inputs, plan), values)
    ensures forall k :: 0 <= k < |inputs| ==> inputs[k].key in values
    ensures FilledWell(inputs, args, plan, Fill(args, inputs, values), values)
  {
    ResolvedIsCarriable(inputs, args, plan, values);
    forall i | 0 <= i < |inputs| && !inputs[i].omitDefaultFlag
      ensures ReadsBack(inputs[i], args, inputs, plan, Fill(args, inputs, values), values)
    {
      FilledAgrees(inputs, args, plan, values, i);
    }
    forall flag | IsFlag(flag) && flag !in Flags(inputs) && WellFormed(args, flag)
      ensures Get(Fill(args, inputs, values), flag) == Get(args, flag)
    {
      FillMeaning(args, inputs, values, flag);
      NothingFilled(inputs, values, flag);
    }
  }
}
