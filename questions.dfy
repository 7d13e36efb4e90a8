/** The question bank of the EXANI-II simulator: module keys mapped to
    ordered lists of question records. Only the fields the session logic
    reads are kept: the index of the correct option and the area label. */
module Questions {

  datatype Option<T> = None | Some(value: T)

  /** A question record; its text and option strings are not modelled. */
  datatype Question = Question(correct: nat, area: string)

  /** A recorded answer: `None` until an option is chosen. */
  type Answer = Option<nat>

  type ModuleKey = string

  /** The bank: module key to the module's ordered questions. */
  type Bank = map<ModuleKey, seq<Question>>

  /** Every question offers this many options (A, B, C). */
  const OptionsPerQuestion: nat := 3

  /** Looking a module up with an empty list as the default. */
  function Lookup(bank: Bank, m: ModuleKey): seq<Question>
  {
    if m in bank then bank[m] else []
  }

  /** The module keys the dashboard offers for selection. */
  const ModuleKeys: seq<ModuleKey> :=
    ["pensamiento_matematico", "comprension_lectora", "redaccion_indirecta",
     "biologia", "fisica", "quimica", "historia", "literatura"]

  function Repeat(q: Question, n: nat): (r: seq<Question>)
    ensures |r| == n && forall i :: 0 <= i < n ==> r[i] == q
  {
    if n == 0 then [] else Repeat(q, n - 1) + [q]
  }

  /** The bank the application loads at start-up, reduced to the correct
      option and the area of each question, in bank order. */
  function ShippedBank(): Bank
  {
    var pm := "Pensamiento Matemático";
    var cl := "Comprensión Lectora";
    var ri := "Redacción Indirecta";
    map[
      "pensamiento_matematico" :=
        [Question(2, pm), Question(1, pm), Question(1, pm), Question(1, pm), Question(0, pm),
         Question(2, pm), Question(2, pm), Question(0, pm), Question(0, pm), Question(0, pm)],
      "comprension_lectora" :=
        [Question(2, cl), Question(1, cl), Question(0, cl), Question(2, cl), Question(0, cl),
         Question(1, cl)],
      "redaccion_indirecta" :=
        [Question(0, ri), Question(1, ri), Question(0, ri), Question(0, ri), Question(0, ri),
         Question(2, ri)],
      "biologia" := Repeat(Question(0, "Biología"), 2),
      "fisica" := Repeat(Question(0, "Física"), 2),
      "quimica" := Repeat(Question(0, "Química"), 2),
      "historia" := [Question(0, "Historia")],
      "literatura" := [Question(0, "Literatura")]
    ]
  }

  /** Every module the dashboard offers is present in the shipped bank with
      at least one question, and every correct index names an option. */
  lemma ShippedBankCoversModuleKeys()
    ensures forall m :: m in ModuleKeys ==> m in ShippedBank() && |ShippedBank()[m]| > 0
    ensures forall m, i :: m in ShippedBank() && 0 <= i < |ShippedBank()[m]| ==>
              ShippedBank()[m][i].correct < OptionsPerQuestion
  {
  }
}
