/** The exam configuration: its defaults and the per-type presets of the
    dashboard. */
module Config {
  import opened Questions
  import opened Selection

  /** `exam_config`: the exam type, the selected modules, the time limit in
      minutes and the number of questions. */
  datatype ExamConfig = ExamConfig(examType: string, modules: seq<ModuleKey>, timeLimit: nat, questionCount: nat)

  /** The configuration a new session starts with. */
  function DefaultConfig(): ExamConfig
  {
    ExamConfig("transversales", ["pensamiento_matematico", "comprension_lectora", "redaccion_indirecta"], 180, 30)
  }

  /** One row of the preset table: question count, time limit, modules. */
  datatype Preset = Preset(questionCount: nat, timeLimit: nat, modules: seq<ModuleKey>)

  /** The preset table of `update_exam_settings_by_type`; an unknown type
      has no preset. */
  function PresetFor(examType: string): Option<Preset>
  {
    if examType == "transversales" then
      Some(Preset(90, 180, ["pensamiento_matematico", "comprension_lectora", "redaccion_indirecta"]))
    else if examType == "disciplinares" then
      Some(Preset(48, 120, ["biologia", "fisica", "quimica"]))
    else if examType == "completo" then
      Some(Preset(138, 270, ["pensamiento_matematico", "comprension_lectora", "redaccion_indirecta", "biologia", "fisica"]))
    else if examType == "ingles" then
      Some(Preset(30, 30, ["literatura"]))
    else None
  }

  /** The configuration after a preset is applied: the type is kept and
      count, limit and modules are replaced. */
  function WithPreset(c: ExamConfig, p: Preset): (r: ExamConfig)
    ensures r.examType == c.examType
    ensures r.questionCount == p.questionCount && r.timeLimit == p.timeLimit && r.modules == p.modules
  {
    c.(questionCount := p.questionCount, timeLimit := p.timeLimit, modules := p.modules)
  }

  /** Exactly the four exam types have presets, and every preset lies
      within the dashboard's own bounds (10 to 138 questions, 30 to 300
      minutes) and selects only modules the dashboard offers. */
  lemma PresetsWithinFormBounds(examType: string)
    ensures PresetFor(examType).Some? <==>
              examType in ["transversales", "disciplinares", "completo", "ingles"]
    ensures PresetFor(examType).Some? ==>
              var p := PresetFor(examType).value;
              10 <= p.questionCount <= 138 && 30 <= p.timeLimit <= 300 &&
              p.modules != [] && forall m :: m in p.modules ==> m in ModuleKeys
  {
  }

  /** Any non-empty choice among the dashboard's modules has questions in
      the shipped bank: with the shipped bank the top-up loop always has a
      module to draw from. */
  lemma DashboardChoicesHaveQuestions(modules: seq<ModuleKey>)
    requires modules != [] && forall m :: m in modules ==> m in ModuleKeys
    ensures AnyNonEmpty(ShippedBank(), modules)
  {
    ShippedBankCoversModuleKeys();
    assert modules[0] in modules;
  }

  /** With the shipped bank no offered module is dropped from a choice, so
      a top-up pick among the non-empty selected modules is a pick among
      all selected modules, as the application makes it. */
  lemma {:induction false} ShippedBankKeepsEveryChoice(modules: seq<ModuleKey>)
    requires forall m :: m in modules ==> m in ModuleKeys
    ensures NonEmptyModules(ShippedBank(), modules) == modules
  {
    if modules != [] {
      ShippedBankCoversModuleKeys();
      assert modules[0] in modules;
      assert forall m :: m in modules[1..] ==> m in modules;
      ShippedBankKeepsEveryChoice(modules[1..]);
    }
  }

  /** In particular every preset and the default configuration can start
      an exam with the shipped bank. */
  lemma PresetsHaveQuestions(examType: string)
    ensures PresetFor(examType).Some? ==> AnyNonEmpty(ShippedBank(), PresetFor(examType).value.modules)
    ensures AnyNonEmpty(ShippedBank(), DefaultConfig().modules)
  {
    PresetsWithinFormBounds(examType);
    if PresetFor(examType).Some? {
      DashboardChoicesHaveQuestions(PresetFor(examType).value.modules);
    }
    DashboardChoicesHaveQuestions(DefaultConfig().modules);
  }
}
