/** Arguments and values that an extcap program announces: extcap_parse_args and
    extcap_parse_values. */
module ExtcapArgs {
  import opened Framing
  import opened ExtcapTokenizer

  // Numbers and booleans in sentences

  /** The digits from i on, as sscanf's %d reads them; None if there is none. */
  function Digits(s: string, i: nat, n: int): int
    requires i <= |s|
    decreases |s| - i
  {
    if i < |s| && '0' <= s[i] <= '9' then Digits(s, i + 1, 10 * n + (s[i] as int - '0' as int)) else n
  }

  function SkipSpace(s: string, i: nat): (j: nat)
    requires i <= |s|
    ensures i <= j <= |s|
    decreases |s| - i
  {
    if i < |s| && IsSpace(s[i]) then SkipSpace(s, i + 1) else i
  }

  function ScanInt(s: string): Option<int> {
    var i := SkipSpace(s, 0);
    var negative := i < |s| && s[i] == '-';
    var j := if i < |s| && (s[i] == '-' || s[i] == '+') then i + 1 else i;
    if j < |s| && '0' <= s[j] <= '9' then Some(if negative then -Digits(s, j, 0) else Digits(s, j, 0)) else None
  }

  /** A y, a t or a digit other than zero, in the first line. */
  function IsTrue(s: string): bool {
    s != "" && (TrueChar(s[0]) || (!IsNewline(s[0]) && IsTrue(s[1..])))
  }

  predicate TrueChar(c: char) {
    c == 'y' || c == 't' || c == 'Y' || c == 'T' || '1' <= c <= '9'
  }

  predicate IsDigit(c: char) {
    '0' <= c <= '9'
  }

  predicate AllDigits(w: string) {
    forall i | 0 <= i < |w| :: IsDigit(w[i])
  }

  /** The number that some digits after others are, from the last one on. */
  function NumberAfter(n: nat, w: string): nat
    requires AllDigits(w)
  {
    if w == "" then n else 10 * NumberAfter(n, w[..|w| - 1]) + (w[|w| - 1] as int - '0' as int)
  }

  lemma {:induction false} FirstDigit(n: nat, w: string)
    requires w != "" && AllDigits(w)
    ensures NumberAfter(10 * n + (w[0] as int - '0' as int), w[1..]) == NumberAfter(n, w)
  {
    var k := |w| - 1;
    if k == 0 {
    } else {
      FirstDigit(n, w[..k]);
      assert w[1..][..k - 1] == w[..k][1..];
    }
  }

  lemma {:induction false} DigitsRead(s: string, i: nat, e: nat, n: nat)
    requires i <= e <= |s| && AllDigits(s[i..e]) && (e < |s| ==> !IsDigit(s[e]))
    ensures Digits(s, i, n) == NumberAfter(n, s[i..e])
    decreases e - i
  {
    if i < e {
      var w := s[i..e];
      assert IsDigit(w[0]) && w[1..] == s[i + 1..e];
      FirstDigit(n, w);
      DigitsRead(s, i + 1, e, 10 * n + (s[i] as int - '0' as int));
    } else {
      assert s[i..e] == "";
    }
  }

  predicate AllSpace(s: string) {
    forall i | 0 <= i < |s| :: IsSpace(s[i])
  }

  lemma {:induction false} SpaceSkipped(s: string, i: nat, j: nat)
    requires i <= j <= |s| && (forall k | i <= k < j :: IsSpace(s[k])) && (j < |s| ==> !IsSpace(s[j]))
    ensures SkipSpace(s, i) == j
    decreases j - i
  {
    if i == j {
    } else {
      SpaceSkipped(s, i + 1, j);
    }
  }

  predicate IsSign(sign: string) {
    sign == "" || sign == "-" || sign == "+"
  }

  lemma BetweenIs(s: string, i: nat, sign: string)
    requires i + |sign| <= |s| && s[i..i + |sign|] == sign && IsSign(sign)
    ensures sign != "" ==> s[i] == sign[0]
  {
    assert sign != "" ==> s[i] == s[i..i + |sign|][0];
  }

  /** White space, a sign or none, and digits up to something else are read as a number. */
  lemma IntegerRead(s: string, i: nat, sign: string, e: nat)
    requires i + |sign| < e <= |s| && AllSpace(s[..i]) && IsSign(sign) && s[i..i + |sign|] == sign
    requires AllDigits(s[i + |sign|..e]) && (e < |s| ==> !IsDigit(s[e]))
    ensures var n: int := NumberAfter(0, s[i + |sign|..e]); ScanInt(s) == Some(if sign == "-" then -n else n)
  {
    var j := i + |sign|;
    assert IsDigit(s[j]) by {
      assert s[j] == s[j..e][0];
    }
    assert forall k | 0 <= k < i :: s[k] == s[..i][k];
    BetweenIs(s, i, sign);
    SpaceSkipped(s, 0, i);
    DigitsRead(s, j, e, 0);
  }

  /** If no digit comes after white space and a sign or none, there is no number. */
  lemma NoIntegerRead(s: string, i: nat, sign: string)
    requires i + |sign| <= |s| && AllSpace(s[..i]) && IsSign(sign) && s[i..i + |sign|] == sign
    requires i + |sign| < |s| ==> !IsDigit(s[i + |sign|])
    requires sign == "" && i < |s| ==> s[i] != '-' && s[i] != '+' && !IsSpace(s[i])
    ensures ScanInt(s) == None
  {
    assert forall k | 0 <= k < i :: s[k] == s[..i][k];
    BetweenIs(s, i, sign);
    SpaceSkipped(s, 0, i);
  }

  predicate TrueAt(s: string, i: nat) {
    i < |s| && s[i] in "ytYT123456789" && OneLine(s[..i])
  }

  lemma {:induction false} TrueIfAt(s: string, i: nat)
    requires TrueAt(s, i)
    ensures IsTrue(s)
    decreases i
  {
    if i == 0 {
    } else {
      assert s[0] == s[..i][0];
      assert s[1..][..i - 1] == s[..i][1..];
      TrueIfAt(s[1..], i - 1);
    }
  }

  lemma {:induction false} WhereTrue(s: string) returns (i: nat)
    requires IsTrue(s)
    ensures TrueAt(s, i)
    decreases |s|
  {
    if TrueChar(s[0]) {
      i := 0;
    } else {
      var k := WhereTrue(s[1..]);
      i := k + 1;
      assert s[i] == s[1..][k];
      assert s[..i] == [s[0]] + s[1..][..k];
    }
  }

  /** A text is true if and only if one of these characters is in its first line. */
  lemma IsTrueIff(s: string)
    ensures IsTrue(s) <==> exists i: nat :: TrueAt(s, i)
  {
    if IsTrue(s) {
      var i := WhereTrue(s);
    }
    if i: nat :| TrueAt(s, i) {
      TrueIfAt(s, i);
    }
  }

  // Sentences

  datatype ValueInfo = ValueInfo(argNum: int, call: string, display: string, parent: Option<string>,
                                 isDefault: bool, enabled: bool)

  /** An argument without its values; the attributes that no decision depends on stay in the table. */
  datatype ArgInfo = ArgInfo(argNum: int, call: string, display: string, argType: ArgType, attributes: Table)

  datatype ArgType =
    | IntegerArg | UnsignedArg | LongArg | DoubleArg | BooleanArg | BoolflagArg | SelectorArg | EditSelectorArg
    | RadioArg | StringArg | PasswordArg | FileSelectArg | MultiCheckArg | TimestampArg

  const ARG_TYPES: seq<ArgType> := [
    IntegerArg, UnsignedArg, LongArg, DoubleArg, BooleanArg, BoolflagArg, SelectorArg, EditSelectorArg, RadioArg,
    StringArg, PasswordArg, FileSelectArg, MultiCheckArg, TimestampArg]

  function TypeName(t: ArgType): string {
    match t
    case IntegerArg => "integer"
    case UnsignedArg => "unsigned"
    case LongArg => "long"
    case DoubleArg => "double"
    case BooleanArg => "boolean"
    case BoolflagArg => "boolflag"
    case SelectorArg => "selector"
    case EditSelectorArg => "editselector"
    case RadioArg => "radio"
    case StringArg => "string"
    case PasswordArg => "password"
    case FileSelectArg => "fileselect"
    case MultiCheckArg => "multicheck"
    case TimestampArg => "timestamp"
  }

  predicate IsArgSentence(s: Sentence) {
    Lower(s.name) == "arg"
  }

  predicate IsValueSentence(s: Sentence) {
    Lower(s.name) == "value"
  }

  function TrueIfGiven(t: Table, p: Param): bool {
    match Get(t, p) case Some(text) => IsTrue(text) case None => false
  }

  /** The value of a value sentence. None: not one, or not well formed. */
  function ParsedValue(s: Sentence): Option<ValueInfo> {
    var number := match Get(s.params, Arg) case Some(text) => ScanInt(text) case None => None;
    if !IsValueSentence(s) || number.None? || Value !in s.params || Display !in s.params then None
    else Some(ValueInfo(number.value, s.params[Value], s.params[Display], Get(s.params, Parent),
                        TrueIfGiven(s.params, Default), TrueIfGiven(s.params, Enabled)))
  }

  /** The argument of an argument sentence. None: not one, or not well formed. */
  function ParsedArg(s: Sentence): Option<ArgInfo> {
    var number := match Get(s.params, ArgNum) case Some(text) => ScanInt(text) case None => None;
    var argType := match Get(s.params, Type) case Some(text) => Named(TypeName, ARG_TYPES, Lower(text)) case None => None;
    if !IsArgSentence(s) || number.None? || Get(s.params, Call) in {None, Some("")} || Display !in s.params
       || argType.None? || (Range in s.params && ',' !in s.params[Range])
    then None
    else Some(ArgInfo(number.value, s.params[Call], s.params[Display], argType.value, s.params))
  }

  /** What a sentence contributes to a list of arguments. */
  datatype Item = AnArg(arg: ArgInfo) | AValue(v: ValueInfo) | Neither

  function ItemOf(s: Sentence): Item {
    if IsArgSentence(s) then match ParsedArg(s) case Some(arg) => AnArg(arg) case None => Neither
    else match ParsedValue(s) case Some(v) => AValue(v) case None => Neither
  }

  function Items(sentences: seq<Sentence>): (r: seq<Item>)
    ensures |r| == |sentences| && forall i | 0 <= i < |sentences| :: r[i] == ItemOf(sentences[i])
  {
    if sentences == [] then [] else Items(sentences[..|sentences| - 1]) + [ItemOf(sentences[|sentences| - 1])]
  }

  // Grouping

  datatype ArgGroup = ArgGroup(arg: ArgInfo, values: seq<ValueInfo>)

  /** The first argument with a number. */
  function FindNumbered(groups: seq<ArgGroup>, n: int): (k: Option<nat>)
    ensures k.Some? ==> k.value < |groups| && groups[k.value].arg.argNum == n
                        && forall j | 0 <= j < k.value :: groups[j].arg.argNum != n
    ensures k.None? ==> forall j | 0 <= j < |groups| :: groups[j].arg.argNum != n
  {
    if groups == [] then None
    else
      var n0 := |groups| - 1;
      match FindNumbered(groups[..n0], n)
      case Some(k) => Some(k)
      case None => if groups[n0].arg.argNum == n then Some(n0) else None
  }

  function AddValue(groups: seq<ArgGroup>, v: ValueInfo): seq<ArgGroup> {
    match FindNumbered(groups, v.argNum)
    case None => groups
    case Some(k) => groups[k := groups[k].(values := groups[k].values + [v])]
  }

  /** What one more sentence does to the list of arguments. */
  function Grouped(groups: seq<ArgGroup>, item: Item): seq<ArgGroup> {
    match item
    case AnArg(arg) => groups + [ArgGroup(arg, [])]
    case AValue(v) => AddValue(groups, v)
    case Neither => groups
  }

  function Groups(items: seq<Item>): seq<ArgGroup> {
    if items == [] then [] else Grouped(Groups(items[..|items| - 1]), items[|items| - 1])
  }

  /** All the well-formed values, in order. */
  function Values(items: seq<Item>): seq<ValueInfo> {
    if items == [] then []
    else if items[|items| - 1].AValue? then Values(items[..|items| - 1]) + [items[|items| - 1].v]
    else Values(items[..|items| - 1])
  }

  // What the list of arguments holds

  /** Where the well-formed arguments are. */
  function ArgPositions(items: seq<Item>): seq<nat> {
    if items == [] then []
    else if items[|items| - 1].AnArg? then ArgPositions(items[..|items| - 1]) + [|items| - 1]
    else ArgPositions(items[..|items| - 1])
  }

  /** The values with a number. */
  function Numbered(vs: seq<ValueInfo>, n: int): seq<ValueInfo> {
    if vs == [] then []
    else if vs[|vs| - 1].argNum == n then Numbered(vs[..|vs| - 1], n) + [vs[|vs| - 1]]
    else Numbered(vs[..|vs| - 1], n)
  }

  /** No argument before the k-th has its number. */
  ghost predicate FirstWithNumber(groups: seq<ArgGroup>, k: nat)
    requires k < |groups|
  {
    forall j | 0 <= j < k :: groups[j].arg.argNum != groups[k].arg.argNum
  }

  /** The values that the argument at a place should have: if no earlier one has its number, the
      well-formed values with its number that come after it. */
  function Due(items: seq<Item>, at: nat, first: bool, n: int): seq<ValueInfo>
    requires at < |items|
  {
    if first then Numbered(Values(items[at + 1..]), n) else []
  }

  ghost predicate WellGrouped(groups: seq<ArgGroup>, items: seq<Item>) {
    var at := ArgPositions(items);
    && |groups| == |at|
    && (forall k | 0 <= k < |groups| ::
          && at[k] < |items| && items[at[k]] == AnArg(groups[k].arg)
          && groups[k].values == Due(items, at[k], FirstWithNumber(groups, k), groups[k].arg.argNum))
  }

  lemma ValuesOneMore(items: seq<Item>, item: Item)
    ensures Values(items + [item]) == if item.AValue? then Values(items) + [item.v] else Values(items)
  {
    assert (items + [item])[..|items + [item]| - 1] == items;
  }

  lemma NumberedOneMore(vs: seq<ValueInfo>, v: ValueInfo, n: int)
    ensures Numbered(vs + [v], n) == if v.argNum == n then Numbered(vs, n) + [v] else Numbered(vs, n)
  {
    assert (vs + [v])[..|vs + [v]| - 1] == vs;
  }

  lemma PositionsOneMore(before: seq<Item>, item: Item)
    ensures ArgPositions(before + [item])
         == if item.AnArg? then ArgPositions(before) + [|before|] else ArgPositions(before)
  {
    assert (before + [item])[..|before + [item]| - 1] == before;
  }

  /** What is due to an argument when one more sentence comes. */
  lemma DueOneMore(before: seq<Item>, item: Item, at: nat, first: bool, n: int)
    requires at < |before|
    ensures Due(before + [item], at, first, n)
         == if item.AValue? && item.v.argNum == n && first then Due(before, at, first, n) + [item.v]
            else Due(before, at, first, n)
  {
    assert (before + [item])[at + 1..] == before[at + 1..] + [item];
    ValuesOneMore(before[at + 1..], item);
    if item.AValue? {
      NumberedOneMore(Values(before[at + 1..]), item.v, n);
    }
  }

  /** One more sentence leaves the arguments that are there where they are. */
  lemma StillThere(groups: seq<ArgGroup>, item: Item, k: nat)
    requires k < |groups|
    ensures var after := Grouped(groups, item);
            && k < |after| && after[k].arg == groups[k].arg && FirstWithNumber(after, k) == FirstWithNumber(groups, k)
            && after[k].values == if item.AValue? && item.v.argNum == groups[k].arg.argNum && FirstWithNumber(groups, k)
                                  then groups[k].values + [item.v] else groups[k].values
  {
  }

  /** One more sentence gives each argument that is there already what is due to it. */
  lemma StillDue(before: seq<Item>, item: Item, groups: seq<ArgGroup>, k: nat)
    requires WellGrouped(groups, before) && k < |groups|
    ensures var after, at := Grouped(groups, item), ArgPositions(before)[k];
            && k < |after| && after[k].arg == groups[k].arg && FirstWithNumber(after, k) == FirstWithNumber(groups, k)
            && after[k].values == Due(before + [item], at, FirstWithNumber(groups, k), groups[k].arg.argNum)
  {
    StillThere(groups, item, k);
    DueOneMore(before, item, ArgPositions(before)[k], FirstWithNumber(groups, k), groups[k].arg.argNum);
  }

  lemma OneMoreKeepsGrouping(before: seq<Item>, item: Item, groups: seq<ArgGroup>)
    requires WellGrouped(groups, before)
    ensures WellGrouped(Grouped(groups, item), before + [item])
  {
    var after, at := Grouped(groups, item), ArgPositions(before + [item]);
    PositionsOneMore(before, item);
    forall k | 0 <= k < |after|
      ensures at[k] < |before + [item]| && (before + [item])[at[k]] == AnArg(after[k].arg)
      ensures after[k].values == Due(before + [item], at[k], FirstWithNumber(after, k), after[k].arg.argNum)
    {
      if k < |groups| {
        StillDue(before, item, groups, k);
      } else {
        assert (before + [item])[|before| + 1..] == [];
      }
    }
  }

  /** Each argument's values are, in order, the well-formed values with its number that come after
      it, unless an argument before it has the same number: then it has none. */
  lemma {:induction false} ArgumentsWellGrouped(items: seq<Item>)
    ensures WellGrouped(Groups(items), items)
  {
    if items == [] {
    } else {
      ArgumentsWellGrouped(items[..|items| - 1]);
      OneMoreKeepsGrouping(items[..|items| - 1], items[|items| - 1], Groups(items[..|items| - 1]));
      assert items[..|items| - 1] + [items[|items| - 1]] == items;
    }
  }

  // No value is lost or doubled

  function AllValues(groups: seq<ArgGroup>): seq<ValueInfo> {
    if groups == [] then [] else AllValues(groups[..|groups| - 1]) + groups[|groups| - 1].values
  }

  /** The well-formed values that come after an argument with their number. */
  function Claimed(items: seq<Item>): seq<ValueInfo> {
    if items == [] then []
    else
      var n := |items| - 1;
      if items[n].AValue? && HasArgument(items[..n], items[n].v.argNum) then Claimed(items[..n]) + [items[n].v]
      else Claimed(items[..n])
  }

  predicate HasArgument(items: seq<Item>, n: int) {
    exists j | 0 <= j < |items| :: items[j].AnArg? && items[j].arg.argNum == n
  }

  lemma AllValuesOf(before: seq<ArgGroup>, last: ArgGroup)
    ensures AllValues(before + [last]) == AllValues(before) + last.values
  {
    assert (before + [last])[..|before + [last]| - 1] == before;
  }

  lemma AddLast(before: seq<ArgGroup>, last: ArgGroup, v: ValueInfo)
    ensures multiset(AllValues(before + [last.(values := last.values + [v])])) == multiset(AllValues(before + [last])) + multiset{v}
  {
    AllValuesOf(before, last);
    AllValuesOf(before, last.(values := last.values + [v]));
    Associate(AllValues(before), last.values, [v]);
  }

  lemma AddBefore(before: seq<ArgGroup>, after: seq<ArgGroup>, last: ArgGroup, v: ValueInfo)
    requires multiset(AllValues(after)) == multiset(AllValues(before)) + multiset{v}
    ensures multiset(AllValues(after + [last])) == multiset(AllValues(before + [last])) + multiset{v}
  {
    AllValuesOf(before, last);
    AllValuesOf(after, last);
  }

  lemma {:induction false} AddOne(groups: seq<ArgGroup>, k: nat, v: ValueInfo)
    requires k < |groups|
    ensures multiset(AllValues(groups[k := groups[k].(values := groups[k].values + [v])]))
         == multiset(AllValues(groups)) + multiset{v}
  {
    var n := |groups| - 1;
    var before, last, more := groups[..n], groups[n], groups[k].(values := groups[k].values + [v]);
    assert groups == before + [last];
    if k == n {
      assert groups[k := more] == before + [more];
      AddLast(before, last, v);
    } else {
      AddOne(before, k, v);
      assert groups[k := more] == before[k := more] + [last];
      AddBefore(before, before[k := more], last, v);
    }
  }

  lemma {:induction false} PositionsComplete(items: seq<Item>, j: nat)
    requires j < |items| && items[j].AnArg?
    ensures j in ArgPositions(items)
  {
    if j == |items| - 1 {
    } else {
      PositionsComplete(items[..|items| - 1], j);
    }
  }

  lemma FoundIffArgument(items: seq<Item>, n: int)
    ensures FindNumbered(Groups(items), n).Some? <==> HasArgument(items, n)
  {
    ArgumentsWellGrouped(items);
    var groups, at := Groups(items), ArgPositions(items);
    if FindNumbered(groups, n).Some? {
      var k := FindNumbered(groups, n).value;
      assert items[at[k]].arg.argNum == n;
    }
    if HasArgument(items, n) {
      var j :| 0 <= j < |items| && items[j].AnArg? && items[j].arg.argNum == n;
      PositionsComplete(items, j);
      var k :| 0 <= k < |at| && at[k] == j;
      assert groups[k].arg.argNum == n;
    }
  }

  /** Together the arguments hold exactly the values that had an argument to go to. */
  lemma {:induction false} ValuesConserved(items: seq<Item>)
    ensures multiset(AllValues(Groups(items))) == multiset(Claimed(items))
  {
    if items == [] {
    } else {
      var before, item := items[..|items| - 1], items[|items| - 1];
      var groups := Groups(before);
      ValuesConserved(before);
      match item
      case AValue(v) =>
        FoundIffArgument(before, v.argNum);
        match FindNumbered(groups, v.argNum) {
          case Some(k) => AddOne(groups, k, v);
          case None =>
        }
      case AnArg(arg) =>
        assert (groups + [ArgGroup(arg, [])])[..|groups|] == groups;
      case Neither =>
    }
  }

  // Lists in place

  class ArgEntry {
    const arg: ArgInfo
    var values: seq<ValueInfo>

    constructor (arg: ArgInfo)
      ensures this.arg == arg && values == []
    {
      this.arg, values := arg, [];
    }
  }

  ghost function View(args: seq<ArgEntry>): (r: seq<ArgGroup>)
    reads args
    ensures |r| == |args| && forall k | 0 <= k < |args| :: r[k] == ArgGroup(args[k].arg, args[k].values)
  {
    if args == [] then []
    else View(args[..|args| - 1]) + [ArgGroup(args[|args| - 1].arg, args[|args| - 1].values)]
  }

  ghost predicate Distinct(args: seq<ArgEntry>) {
    forall i, j | 0 <= i < j < |args| :: args[i] != args[j]
  }

  lemma FoundAt(groups: seq<ArgGroup>, n: int, k: nat)
    requires k < |groups| && groups[k].arg.argNum == n && forall j | 0 <= j < k :: groups[j].arg.argNum != n
    ensures FindNumbered(groups, n) == Some(k)
  {
  }

  lemma NotFound(groups: seq<ArgGroup>, n: int)
    requires forall j | 0 <= j < |groups| :: groups[j].arg.argNum != n
    ensures FindNumbered(groups, n) == None
  {
  }

  /** The place of the first argument with a number. */
  method FindEntry(args: seq<ArgEntry>, n: int) returns (k: Option<nat>)
    ensures k == FindNumbered(View(args), n)
  {
    var i := 0;
    while i < |args|
      invariant i <= |args| && forall j | 0 <= j < i :: args[j].arg.argNum != n
    {
      if args[i].arg.argNum == n {
        FoundAt(View(args), n, i);
        return Some(i);
      }
      i := i + 1;
    }
    NotFound(View(args), n);
    return None;
  }

  /** A value goes to the first argument with its number. */
  method GiveValue(args: seq<ArgEntry>, v: ValueInfo)
    requires Distinct(args)
    modifies args
    ensures View(args) == AddValue(old(View(args)), v)
  {
    var k := FindEntry(args, v.argNum);
    if k.Some? {
      args[k.value].values := args[k.value].values + [v];
    }
  }

  /** Take in one sentence: a new argument, or a value of one that is there. */
  method ParseArgSentence(args: seq<ArgEntry>, s: Sentence) returns (target: Option<ArgEntry>)
    requires Distinct(args)
    modifies args
    ensures target.Some? ==> fresh(target.value)
    ensures Grouped(old(View(args)), ItemOf(s))
         == if target.Some? then View(args) + [ArgGroup(target.value.arg, target.value.values)] else View(args)
  {
    var item := ItemOf(s);
    match item
    case AnArg(arg) =>
      var entry := new ArgEntry(arg);
      target := Some(entry);
    case AValue(v) =>
      GiveValue(args, v);
      target := None;
    case Neither =>
      target := None;
  }

  /** Take in one sentence, and keep the list. */
  method AddSentence(args: seq<ArgEntry>, s: Sentence) returns (result: seq<ArgEntry>)
    requires Distinct(args)
    modifies args
    ensures Distinct(result) && View(result) == Grouped(old(View(args)), ItemOf(s))
    ensures args <= result && |result| <= |args| + 1 && (|result| > |args| ==> fresh(result[|args|]))
  {
    var target := ParseArgSentence(args, s);
    match target
    case Some(entry) =>
      result := args + [entry];
      assert result[..|args|] == args;
    case None =>
      result := args;
  }

  /** The arguments that an extcap program announces, with their values. */
  method ParseArgs(output: string) returns (result: seq<ArgEntry>)
    ensures fresh(result) && Distinct(result)
    ensures View(result) == Groups(Items(TokenizedLines(Lines(output))))
  {
    var sentences := TokenizeSentences(output);
    result := ListArguments(sentences);
  }

  method ListArguments(sentences: seq<Sentence>) returns (result: seq<ArgEntry>)
    ensures fresh(result) && Distinct(result) && View(result) == Groups(Items(sentences))
  {
    result := [];
    NothingGrouped(sentences);
    var i := 0;
    while i < |sentences|
      invariant i <= |sentences| && fresh(result) && Distinct(result)
      invariant View(result) == Groups(Items(sentences[..i]))
    {
      result := AddNext(result, sentences, i);
      i := i + 1;
    }
    assert sentences[..i] == sentences;
  }

  lemma NothingGrouped(sentences: seq<Sentence>)
    ensures Groups(Items(sentences[..0])) == [] && View([]) == []
  {
  }

  /** Take in the next of several sentences. */
  method AddNext(args: seq<ArgEntry>, sentences: seq<Sentence>, i: nat) returns (result: seq<ArgEntry>)
    requires Distinct(args) && i < |sentences| && View(args) == Groups(Items(sentences[..i]))
    modifies args
    ensures Distinct(result) && View(result) == Groups(Items(sentences[..i + 1]))
    ensures args <= result && |result| <= |args| + 1 && (|result| > |args| ==> fresh(result[|args|]))
  {
    ItemsOneMore(sentences, i);
    result := AddSentence(args, sentences[i]);
  }

  lemma ItemsOneMore(sentences: seq<Sentence>, i: nat)
    requires i < |sentences|
    ensures Groups(Items(sentences[..i + 1])) == Grouped(Groups(Items(sentences[..i])), ItemOf(sentences[i]))
    ensures Values(Items(sentences[..i + 1]))
         == Values(Items(sentences[..i])) + if ItemOf(sentences[i]).AValue? then [ItemOf(sentences[i]).v] else []
  {
    assert sentences[..i + 1][..i] == sentences[..i];
    var items := Items(sentences[..i + 1]);
    assert items[..|items| - 1] == Items(sentences[..i]);
  }

  /** The values that an extcap program announces. */
  method ParseValues(output: string) returns (result: seq<ValueInfo>)
    ensures result == Values(Items(TokenizedLines(Lines(output))))
  {
    var sentences := TokenizeSentences(output);
    result := [];
    var i := 0;
    while i < |sentences|
      invariant i <= |sentences| && result == Values(Items(sentences[..i]))
    {
      ItemsOneMore(sentences, i);
      ArgOrValue(sentences[i]);
      var v := ParsedValue(sentences[i]);
      if v.Some? {
        result := result + [v.value];
      }
      i := i + 1;
    }
    assert sentences[..i] == sentences;
  }

  lemma ArgOrValue(s: Sentence)
    ensures ItemOf(s) == match ParsedValue(s) case Some(v) => AValue(v)
                                              case None => (match ParsedArg(s) case Some(arg) => AnArg(arg) case None => Neither)
  {
  }

  // Lines that start with a separator

  /** What a line that is a sentence starts with after any separators. */
  function KeywordIn(line: string): string
    requires SentenceName(line).Some?
  {
    var i := SkipSeparators(line, 0);
    Lower(line[i..WordEnd(Word, KEYWORDS, line, i).value])
  }

  /** A line is an argument or a value sentence if and only if it starts with its keyword, without a
      separator before it, and that is arg or value. */
  lemma ArgOrValueLineIff(line: string)
    requires Tokenized(line).Some?
    ensures line != "" && SentenceName(line).Some?
    ensures var s := Tokenized(line).value;
            && (IsArgSentence(s) <==> !IsSeparator(line[0]) && KeywordIn(line) == "arg")
            && (IsValueSentence(s) <==> !IsSeparator(line[0]) && KeywordIn(line) == "value")
  {
    var name := SentenceName(line).value;
    if IsSeparator(line[0]) {
      assert name[0] == line[0];
      LowerAt(name, 0);
    } else {
      assert SkipSeparators(line, 0) == 0;
    }
  }

  /** With a separator before it, a well-formed sentence of any kind contributes nothing. */
  lemma LeadingSeparatorIgnored(before: string, k: Keyword, pairs: seq<Pair>)
    requires before != "" && AllSeparators(before) && pairs != []
    requires forall i | 0 <= i < |pairs| :: IsKey(pairs[i].key) && Clean(pairs[i].value)
    ensures var line := before + PrintSentence(Word(k), pairs);
            Tokenized(line).Some? && ItemOf(Tokenized(line).value) == Neither
  {
    var line := before + PrintSentence(Word(k), pairs);
    SentenceRoundTrip(before, k, pairs);
    ArgOrValueLineIff(line);
    assert line[0] == before[0];
  }

  // What lines say

  /** The type that a name in lower case stands for. */
  function TypeNamed(s: string): Option<ArgType> {
    if s == "integer" then Some(IntegerArg)
    else if s == "unsigned" then Some(UnsignedArg)
    else if s == "long" then Some(LongArg)
    else if s == "double" then Some(DoubleArg)
    else if s == "boolean" then Some(BooleanArg)
    else if s == "boolflag" then Some(BoolflagArg)
    else if s == "selector" then Some(SelectorArg)
    else if s == "editselector" then Some(EditSelectorArg)
    else if s == "radio" then Some(RadioArg)
    else if s == "string" then Some(StringArg)
    else if s == "password" then Some(PasswordArg)
    else if s == "fileselect" then Some(FileSelectArg)
    else if s == "multicheck" then Some(MultiCheckArg)
    else if s == "timestamp" then Some(TimestampArg)
    else None
  }

  lemma TypesNamed(s: string)
    ensures Named(TypeName, ARG_TYPES, s) == TypeNamed(s)
  {
    var named := Named(TypeName, ARG_TYPES, s);
    NamedSound(TypeName, ARG_TYPES, s);
    if named.Some? {
      NameOfType(named.value);
    } else if TypeNamed(s).Some? {
      NamedType(TypeNamed(s).value, s);
    }
  }

  lemma NameOfType(t: ArgType)
    ensures TypeNamed(TypeName(t)) == Some(t)
  {
  }

  lemma NamedType(t: ArgType, s: string)
    requires TypeNamed(s) == Some(t)
    ensures Named(TypeName, ARG_TYPES, s) == Some(t)
  {
    var i := TypeIndex(t);
    NamedAt(TypeName, ARG_TYPES, s, i);
  }

  function TypeIndex(t: ArgType): (i: nat)
    ensures i < |ARG_TYPES| && ARG_TYPES[i] == t
  {
    match t
    case IntegerArg => 0
    case UnsignedArg => 1
    case LongArg => 2
    case DoubleArg => 3
    case BooleanArg => 4
    case BoolflagArg => 5
    case SelectorArg => 6
    case EditSelectorArg => 7
    case RadioArg => 8
    case StringArg => 9
    case PasswordArg => 10
    case FileSelectArg => 11
    case MultiCheckArg => 12
    case TimestampArg => 13
  }

  /** The argument that the parameters of a line starting with arg announce, if they do. */
  function ArgGiven(pairs: seq<Pair>): Option<ArgInfo> {
    match (Given(pairs, "number"), Given(pairs, "call"), Given(pairs, "display"), Given(pairs, "type"))
    case (Some(number), Some(call), Some(display), Some(kind)) =>
      if ScanInt(number).None? || call == "" || TypeNamed(Lower(kind)).None? || RangeWithoutComma(pairs) then None
      else Some(ArgInfo(ScanInt(number).value, call, display, TypeNamed(Lower(kind)).value, TableOf(pairs)))
    case _ => None
  }

  predicate RangeWithoutComma(pairs: seq<Pair>) {
    Given(pairs, "range").Some? && ',' !in Given(pairs, "range").value
  }

  /** The value that the parameters of a line starting with value announce, if they do. */
  function ValueGiven(pairs: seq<Pair>): Option<ValueInfo> {
    match (Given(pairs, "arg"), Given(pairs, "value"), Given(pairs, "display"))
    case (Some(number), Some(call), Some(display)) =>
      if ScanInt(number).None? then None
      else Some(ValueInfo(ScanInt(number).value, call, display, Given(pairs, "parent"),
                          GivenTrue(pairs, "default"), GivenTrue(pairs, "enabled")))
    case _ => None
  }

  predicate GivenTrue(pairs: seq<Pair>, key: string) {
    Given(pairs, key).Some? && IsTrue(Given(pairs, key).value)
  }

  lemma ArgParsed(name: string, pairs: seq<Pair>)
    requires Lower(name) == "arg"
    ensures ParsedArg(Sentence(name, TableOf(pairs))) == ArgGiven(pairs)
  {
    TableGives(pairs);
    if Given(pairs, "type").Some? {
      TypesNamed(Lower(Given(pairs, "type").value));
    }
  }

  lemma ValueParsed(name: string, pairs: seq<Pair>)
    requires Lower(name) == "value"
    ensures ParsedValue(Sentence(name, TableOf(pairs))) == ValueGiven(pairs)
  {
    ValueTableGives(pairs);
  }

  lemma ValueTableGives(pairs: seq<Pair>)
    ensures var t := TableOf(pairs);
            && Get(t, Arg) == Given(pairs, "arg") && Get(t, Value) == Given(pairs, "value")
            && Get(t, Display) == Given(pairs, "display") && Get(t, Parent) == Given(pairs, "parent")
            && Get(t, Default) == Given(pairs, "default") && Get(t, Enabled) == Given(pairs, "enabled")
  {
    TableGives(pairs);
  }

  function OfArg(arg: Option<ArgInfo>): Item {
    match arg case Some(a) => AnArg(a) case None => Neither
  }

  function OfValue(v: Option<ValueInfo>): Item {
    match v case Some(w) => AValue(w) case None => Neither
  }

  lemma ArgSentenceSays(name: string, pairs: seq<Pair>)
    requires Lower(name) == "arg"
    ensures ItemOf(Sentence(name, TableOf(pairs))) == OfArg(ArgGiven(pairs))
  {
    ArgParsed(name, pairs);
  }

  lemma ValueSentenceSays(name: string, pairs: seq<Pair>)
    requires Lower(name) == "value"
    ensures ItemOf(Sentence(name, TableOf(pairs))) == OfValue(ValueGiven(pairs))
  {
    ValueParsed(name, pairs);
  }

  lemma OtherSentenceSays(s: Sentence)
    requires Lower(s.name) != "arg" && Lower(s.name) != "value"
    ensures ItemOf(s) == Neither
  {
  }

  lemma SeparatedName(name: string)
    requires name != "" && name[0] in "\t| "
    ensures Lower(name) != "arg" && Lower(name) != "value"
  {
    LowerAt(name, 0);
  }

  /** What a line that is a sentence contributes: an argument if its keyword is arg, a value if it is
      value, each as its parameters say, and nothing if it has another or separators before it. */
  lemma LineSays(line: string, p: nat, e: nat, b: nat)
    requires StartsSentence(line, p, e, b)
    ensures Tokenized(line).Some?
    ensures ItemOf(Tokenized(line).value)
         == if p > 0 then Neither
            else if Lower(line[..e]) == "arg" then OfArg(ArgGiven(Pairs(line, 0)))
            else if Lower(line[..e]) == "value" then OfValue(ValueGiven(Pairs(line, 0)))
            else Neither
  {
    var name, pairs := line[..e], Pairs(line, 0);
    SentenceIs(line, p, e, b);
    if p > 0 {
      SeparatedName(name);
      OtherSentenceSays(Sentence(name, TableOf(pairs)));
    } else if Lower(name) == "arg" {
      ArgSentenceSays(name, pairs);
    } else if Lower(name) == "value" {
      ValueSentenceSays(name, pairs);
    } else {
      OtherSentenceSays(Sentence(name, TableOf(pairs)));
    }
  }

  ghost predicate Printable(pairs: seq<Pair>) {
    pairs != [] && forall i | 0 <= i < |pairs| :: IsKey(pairs[i].key) && Clean(pairs[i].value)
  }

  lemma PrintedSentence(k: Keyword, name: string, pairs: seq<Pair>)
    requires Printable(pairs) && name == Word(k)
    ensures Tokenized(PrintSentence(name, pairs)) == Some(Sentence(name, TableOf(pairs))) && Lower(name) == name
  {
    SentenceRoundTrip([], k, pairs);
    assert [] + PrintSentence(name, pairs) == PrintSentence(name, pairs) && [] + name == name;
    WordsAreLower(k);
    LowerWordStays(name);
  }

  /** A printed argument line yields the argument that its parameters announce, if they do. */
  lemma PrintedArgLine(pairs: seq<Pair>)
    requires Printable(pairs)
    ensures var line := PrintSentence("arg", pairs);
            && Tokenized(line) == Some(Sentence("arg", TableOf(pairs)))
            && ItemOf(Tokenized(line).value) == OfArg(ArgGiven(pairs))
  {
    PrintedSentence(ArgWord, "arg", pairs);
    ArgSentenceSays("arg", pairs);
  }

  /** And a printed value line the value. */
  lemma PrintedValueLine(pairs: seq<Pair>)
    requires Printable(pairs)
    ensures var line := PrintSentence("value", pairs);
            && Tokenized(line) == Some(Sentence("value", TableOf(pairs)))
            && ItemOf(Tokenized(line).value) == OfValue(ValueGiven(pairs))
  {
    PrintedSentence(ValueWord, "value", pairs);
    ValueSentenceSays("value", pairs);
  }

  // Lines such as arg {number=0}{call=--delay}{display=Delay}{type=integer}

  lemma GivenOne(pairs: seq<Pair>, key: string, value: string, asked: string)
    requires IsLowerWord(key)
    ensures Given(pairs + [Pair(key, value)], asked) == if key == asked then Some(value) else Given(pairs, asked)
  {
    LowerWordStays(key);
    assert (pairs + [Pair(key, value)])[..|pairs|] == pairs;
  }

  /** The four parameters that an argument needs. */
  function ArgParams(number: string, call: string, display: string, kind: string): seq<Pair> {
    [Pair("number", number)] + [Pair("call", call)] + [Pair("display", display)] + [Pair("type", kind)]
  }

  lemma ArgParamsGive(number: string, call: string, display: string, kind: string, asked: string)
    ensures Given(ArgParams(number, call, display, kind), asked)
         == if asked == "number" then Some(number) else if asked == "call" then Some(call)
            else if asked == "display" then Some(display) else if asked == "type" then Some(kind) else None
  {
    var a, b := [Pair("number", number)], [Pair("number", number)] + [Pair("call", call)];
    GivenOne([], "number", number, asked);
    assert [] + a == a;
    GivenOne(a, "call", call, asked);
    GivenOne(b, "display", display, asked);
    GivenOne(b + [Pair("display", display)], "type", kind, asked);
  }

  lemma ArgParamsSay(number: string, call: string, display: string, kind: string)
    requires ScanInt(number).Some? && call != "" && TypeNamed(Lower(kind)).Some?
    ensures var params := ArgParams(number, call, display, kind);
            ArgGiven(params)
            == Some(ArgInfo(ScanInt(number).value, call, display, TypeNamed(Lower(kind)).value, TableOf(params)))
  {
    ArgParamsGive(number, call, display, kind, "number");
    ArgParamsGive(number, call, display, kind, "call");
    ArgParamsGive(number, call, display, kind, "display");
    ArgParamsGive(number, call, display, kind, "type");
    ArgParamsGive(number, call, display, kind, "range");
  }

  lemma ArgParamsPrintable(number: string, call: string, display: string, kind: string)
    requires Clean(number) && Clean(call) && Clean(display) && Clean(kind)
    ensures Printable(ArgParams(number, call, display, kind))
  {
  }

  /** Such a line announces an argument with just these attributes. */
  lemma ArgLine(number: string, call: string, display: string, kind: string, params: seq<Pair>)
    requires ScanInt(number).Some? && call != "" && TypeNamed(Lower(kind)).Some?
    requires Clean(number) && Clean(call) && Clean(display) && Clean(kind)
    requires params == ArgParams(number, call, display, kind)
    ensures var line := PrintSentence("arg", params);
            && Tokenized(line).Some?
            && ItemOf(Tokenized(line).value)
               == AnArg(ArgInfo(ScanInt(number).value, call, display, TypeNamed(Lower(kind)).value, TableOf(params)))
  {
    ArgParamsSay(number, call, display, kind);
    ArgParamsPrintable(number, call, display, kind);
    PrintedArgLine(params);
  }

  // Lines such as value {arg=0}{value=1}{display=x}

  /** The three parameters that a value needs. */
  function ValueParams(number: string, call: string, display: string): seq<Pair> {
    [Pair("arg", number)] + [Pair("value", call)] + [Pair("display", display)]
  }

  lemma ValueParamsGive(number: string, call: string, display: string, asked: string)
    ensures Given(ValueParams(number, call, display), asked)
         == if asked == "arg" then Some(number) else if asked == "value" then Some(call)
            else if asked == "display" then Some(display) else None
  {
    var a := [Pair("arg", number)];
    GivenOne([], "arg", number, asked);
    assert [] + a == a;
    GivenOne(a, "value", call, asked);
    GivenOne(a + [Pair("value", call)], "display", display, asked);
  }

  lemma ValueParamsSay(number: string, call: string, display: string)
    requires ScanInt(number).Some?
    ensures ValueGiven(ValueParams(number, call, display))
         == Some(ValueInfo(ScanInt(number).value, call, display, None, false, false))
  {
    ValueParamsGive(number, call, display, "arg");
    ValueParamsGive(number, call, display, "value");
    ValueParamsGive(number, call, display, "display");
    ValueParamsGive(number, call, display, "parent");
    ValueParamsGive(number, call, display, "default");
    ValueParamsGive(number, call, display, "enabled");
  }

  lemma ValueParamsPrintable(number: string, call: string, display: string)
    requires Clean(number) && Clean(call) && Clean(display)
    ensures Printable(ValueParams(number, call, display))
  {
  }

  lemma ValueLine(params: seq<Pair>, number: string, call: string, display: string)
    requires params == ValueParams(number, call, display)
    requires ScanInt(number).Some? && Clean(number) && Clean(call) && Clean(display)
    ensures var line := PrintSentence("value", params);
            && Tokenized(line) == Some(Sentence("value", TableOf(params)))
            && ItemOf(Tokenized(line).value) == AValue(ValueInfo(ScanInt(number).value, call, display, None, false, false))
  {
    ValueParamsPrintable(number, call, display);
    PrintedValueLine(params);
    ValueParamsSay(number, call, display);
  }

  /** A line of this kind without and with a blank before it: a value, and nothing. */
  lemma BlankLosesValue(params: seq<Pair>, number: string, call: string, display: string)
    requires params == ValueParams(number, call, display)
    requires ScanInt(number).Some? && Clean(number) && Clean(call) && Clean(display)
    ensures var line := PrintSentence("value", params);
            && Tokenized(line) == Some(Sentence("value", TableOf(params)))
            && ItemOf(Tokenized(line).value) == AValue(ValueInfo(ScanInt(number).value, call, display, None, false, false))
            && Tokenized([' '] + line).Some? && ItemOf(Tokenized([' '] + line).value) == Neither
  {
    ValueLine(params, number, call, display);
    BlankLine(params, number, call, display);
  }

  lemma BlankLine(params: seq<Pair>, number: string, call: string, display: string)
    requires params == ValueParams(number, call, display) && Clean(number) && Clean(call) && Clean(display)
    ensures var line := [' '] + PrintSentence("value", params);
            Tokenized(line).Some? && ItemOf(Tokenized(line).value) == Neither
  {
    ValueParamsPrintable(number, call, display);
    LeadingSeparatorIgnored([' '], ValueWord, params);
  }
}
