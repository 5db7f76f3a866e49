/** The detection-rule language: a conjunction of conditions over named signals. */
module Rules {
  import opened Seqs

  type Name = string

  datatype Op = Gt | Ge | Lt | Le | Eq | Ne | In

  /** A raw operand, read as a number, as one word or as a list of words. */
  datatype Operand = Number(number: real) | Word(word: string) | Words(words: set<string>)

  /** Exactly one of a value and a parameter. */
  datatype Source = Value(operand: Operand) | Param(name: string)

  datatype Condition = Condition(signal: Name, op: Op, source: Source)

  datatype Rule = Rule(severity: string, conditions: seq<Condition>, parameters: map<string, Operand>)

  datatype Signals = Signals(numeric: map<Name, real>, flags: map<Name, bool>, labels: map<Name, string>)

  datatype Kind = NumericSignal | FlagSignal | LabelSignal

  /** The signals the language knows, and what a rule may use. */
  datatype Language = Language(kinds: map<Name, Kind>, severities: set<string>, maxConditions: nat)

  ghost predicate SignalsOk(lang: Language, s: Signals) {
    && (forall n :: n in s.numeric ==> n in lang.kinds && lang.kinds[n] == NumericSignal)
    && (forall n :: n in s.flags ==> n in lang.kinds && lang.kinds[n] == FlagSignal)
    && (forall n :: n in s.labels ==> n in lang.kinds && lang.kinds[n] == LabelSignal)
  }

  predicate Compares(op: Op, actual: real, target: real) {
    match op
    case Gt => actual > target
    case Ge => actual >= target
    case Lt => actual < target
    case Le => actual <= target
    case Eq => actual == target
    case Ne => actual != target
    case In => false
  }

  function OperandOf(c: Condition, parameters: map<string, Operand>): Option<Operand> {
    match c.source
    case Value(o) => Some(o)
    case Param(p) => if p in parameters then Some(parameters[p]) else None
  }

  /** `_condition_holds`. A condition on an absent or unknown signal does not hold. */
  predicate Holds(lang: Language, c: Condition, parameters: map<string, Operand>, s: Signals) {
    match OperandOf(c, parameters)
    case None => false
    case Some(raw) =>
      if c.signal !in lang.kinds then false
      else match lang.kinds[c.signal]
        case NumericSignal => c.signal in s.numeric && raw.Number? && Compares(c.op, s.numeric[c.signal], raw.number)
        case FlagSignal =>
          c.signal in s.flags && (s.flags[c.signal] == (raw == Word("true"))) == (c.op == Eq)
        case LabelSignal =>
          c.signal in s.labels &&
          if c.op == In then raw.Words? && s.labels[c.signal] in raw.words
          else (raw == Word(s.labels[c.signal])) == (c.op == Eq)
  }

  /** A rule fires when every condition holds. */
  predicate Fires(lang: Language, conditions: seq<Condition>, parameters: map<string, Operand>, s: Signals) {
    forall c :: c in conditions ==> Holds(lang, c, parameters, s)
  }

  /** `evaluate_rule`, up to the first condition that does not hold. */
  method EvaluateRule(lang: Language, r: Rule, s: Signals) returns (fires: bool, matched: seq<Condition>)
    ensures fires == Fires(lang, r.conditions, r.parameters, s)
    ensures fires ==> matched == r.conditions
  {
    matched := [];
    for i := 0 to |r.conditions|
      invariant matched == r.conditions[..i]
      invariant forall c :: c in matched ==> Holds(lang, c, r.parameters, s)
    {
      if !Holds(lang, r.conditions[i], r.parameters, s) { return false, matched; }
      matched := matched + [r.conditions[i]];
    }
    fires := true;
  }

  predicate ValidCondition(lang: Language, c: Condition, parameters: map<string, Operand>) {
    && c.signal in lang.kinds
    && OperandOf(c, parameters).Some?
    && var raw := OperandOf(c, parameters).value;
    match lang.kinds[c.signal]
    case NumericSignal => c.op != In && raw.Number?
    case FlagSignal => (c.op == Eq || c.op == Ne) && (raw == Word("true") || raw == Word("false"))
    case LabelSignal => c.op == Eq || c.op == Ne || c.op == In
  }

  /** `validate_rule` finds no problem. */
  predicate ValidRule(lang: Language, r: Rule) {
    && r.conditions != [] && |r.conditions| <= lang.maxConditions
    && r.severity in lang.severities
    && forall c :: c in r.conditions ==> ValidCondition(lang, c, r.parameters)
  }

  // ---------------------------------------------------------------- what the comparisons mean

  /** The condition with another operator. */
  function With(c: Condition, op: Op): Condition { c.(op := op) }

  /** The signal and a number to hold it against are both there. */
  ghost predicate Comparable(lang: Language, c: Condition, parameters: map<string, Operand>, s: Signals) {
    && c.signal in lang.kinds && lang.kinds[c.signal] == NumericSignal && c.signal in s.numeric
    && OperandOf(c, parameters).Some? && OperandOf(c, parameters).value.Number?
  }

  /** Of a signal that can be compared, each comparison and its opposite split all cases between
      them, the two weak ones meet exactly in equality, and membership never holds. */
  lemma ComparisonsSplit(lang: Language, c: Condition, parameters: map<string, Operand>, s: Signals)
    requires Comparable(lang, c, parameters, s)
    ensures Holds(lang, With(c, Gt), parameters, s) <==> !Holds(lang, With(c, Le), parameters, s)
    ensures Holds(lang, With(c, Lt), parameters, s) <==> !Holds(lang, With(c, Ge), parameters, s)
    ensures Holds(lang, With(c, Eq), parameters, s) <==> !Holds(lang, With(c, Ne), parameters, s)
    ensures Holds(lang, With(c, Eq), parameters, s) <==> Holds(lang, With(c, Le), parameters, s) && Holds(lang, With(c, Ge), parameters, s)
    ensures Holds(lang, With(c, Ne), parameters, s) <==> Holds(lang, With(c, Lt), parameters, s) || Holds(lang, With(c, Gt), parameters, s)
    ensures !Holds(lang, With(c, In), parameters, s)
  {
  }

  /** The language does not know the signal, or the episode has no value of its kind. */
  ghost predicate Absent(lang: Language, n: Name, s: Signals) {
    || n !in lang.kinds
    || (lang.kinds[n] == NumericSignal && n !in s.numeric)
    || (lang.kinds[n] == FlagSignal && n !in s.flags)
    || (lang.kinds[n] == LabelSignal && n !in s.labels)
  }

  /** On an absent signal, or without an operand, no condition holds and neither does its opposite;
      the same of a number held against something else. */
  lemma AbsentSignalsFireNothing(lang: Language, c: Condition, parameters: map<string, Operand>, s: Signals, op: Op)
    requires || Absent(lang, c.signal, s) || OperandOf(c, parameters).None?
             || (lang.kinds[c.signal] == NumericSignal && !OperandOf(c, parameters).value.Number?)
    ensures !Holds(lang, With(c, op), parameters, s)
  {
  }

  /** Raising a signal keeps the conditions that ask for more and opens none that ask for less;
      raised beyond its limit, the strict one holds. */
  lemma RaisingASignal(lang: Language, c: Condition, parameters: map<string, Operand>, s: Signals, higher: real)
    requires Comparable(lang, c, parameters, s) && higher >= s.numeric[c.signal]
    ensures var t := s.(numeric := s.numeric[c.signal := higher]);
            && (c.op == Gt || c.op == Ge ==> (Holds(lang, c, parameters, s) ==> Holds(lang, c, parameters, t)))
            && (c.op == Lt || c.op == Le ==> (Holds(lang, c, parameters, t) ==> Holds(lang, c, parameters, s)))
            && (higher > OperandOf(c, parameters).value.number ==> Holds(lang, With(c, Gt), parameters, t))
  {
  }

  /** A flag or a label is there, and an operand to hold it against. */
  ghost predicate Worded(lang: Language, c: Condition, parameters: map<string, Operand>, s: Signals) {
    && c.signal in lang.kinds && lang.kinds[c.signal] != NumericSignal && !Absent(lang, c.signal, s)
    && OperandOf(c, parameters).Some?
  }

  /** Equality and its opposite split all cases of a flag or a label; a flag equals the word for its
      value and a label its own word; a label is a member of the lists it stands in. */
  lemma WordsMeaning(lang: Language, c: Condition, parameters: map<string, Operand>, s: Signals)
    requires Worded(lang, c, parameters, s)
    ensures Holds(lang, With(c, Eq), parameters, s) <==> !Holds(lang, With(c, Ne), parameters, s)
    ensures var raw := OperandOf(c, parameters).value;
            && (c.signal in s.flags && lang.kinds[c.signal] == FlagSignal && raw in {Word("true"), Word("false")} ==>
                  (Holds(lang, With(c, Eq), parameters, s) <==> raw == Word(if s.flags[c.signal] then "true" else "false")))
            && (c.signal in s.labels && lang.kinds[c.signal] == LabelSignal ==>
                  && (Holds(lang, With(c, Eq), parameters, s) <==> raw == Word(s.labels[c.signal]))
                  && (Holds(lang, With(c, In), parameters, s) <==> raw.Words? && s.labels[c.signal] in raw.words))
  {
  }

  // ---------------------------------------------------------------- what is valid

  /** What a valid rule may not contain. */
  ghost predicate Faulty(lang: Language, c: Condition, parameters: map<string, Operand>) {
    || c.signal !in lang.kinds
    || OperandOf(c, parameters).None?
    || (lang.kinds[c.signal] == NumericSignal && (c.op == In || !OperandOf(c, parameters).value.Number?))
    || (lang.kinds[c.signal] == FlagSignal &&
        (c.op !in {Eq, Ne} || OperandOf(c, parameters).value !in {Word("true"), Word("false")}))
    || (lang.kinds[c.signal] == LabelSignal && c.op !in {Eq, Ne, In})
  }

  /** A rule is rejected exactly when it has no condition, too many or a faulty one, or an unknown
      severity. */
  lemma ValidMeaning(lang: Language, r: Rule)
    ensures !ValidRule(lang, r) <==>
      || |r.conditions| == 0 || |r.conditions| > lang.maxConditions || r.severity !in lang.severities
      || exists c :: c in r.conditions && Faulty(lang, c, r.parameters)
  {
    forall c ensures ValidCondition(lang, c, r.parameters) <==> !Faulty(lang, c, r.parameters) {}
  }
}
