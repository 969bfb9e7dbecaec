/**
 * The static module catalog: three subjects, three styles and three
 * environments, each with three numeric parameters and no core or dynamic
 * attributes.
 */
module Catalog {
  import opened Types

  /** A catalog entry: no position, no core or dynamic attributes, just parameters. */
  function Entry(id: string, title: string, icon: string, kind: ModuleType, parameters: Parameters): (m: PromptModule)
    ensures m.id == id && m.kind == kind && m.attributes.parameters == parameters
    ensures m.position.None? && m.attributes.coreAttributes.None? && m.attributes.dynamicAttributes.None?
  {
    PromptModule(id, title, icon, kind, None, Attributes(None, None, parameters))
  }

  const Subjects: seq<PromptModule> := [
    Entry("subject-1", "人物", "👤", Subject, [("detail", 75), ("realism", 60), ("lighting", 50)]),
    Entry("subject-2", "风景", "🌄", Subject, [("scale", 80), ("atmosphere", 70), ("depth", 65)]),
    Entry("subject-3", "动物", "🦊", Subject, [("detail", 70), ("action", 50), ("expression", 60)])
  ]

  const Styles: seq<PromptModule> := [
    Entry("style-1", "水彩", "🎨", Style, [("intensity", 65), ("blending", 70), ("texture", 80)]),
    Entry("style-2", "赛博朋克", "🌆", Style, [("neon", 75), ("tech", 80), ("grit", 60)]),
    Entry("style-3", "动漫", "✨", Style, [("stylization", 85), ("shading", 70), ("lineArt", 75)])
  ]

  const Environments: seq<PromptModule> := [
    Entry("env-1", "城市", "🌃", Environment, [("density", 70), ("timeOfDay", 50), ("weather", 60)]),
    Entry("env-2", "自然", "🌲", Environment, [("vegetation", 80), ("terrain", 65), ("atmosphere", 75)]),
    Entry("env-3", "室内", "🏠", Environment, [("lighting", 60), ("furnishing", 70), ("mood", 65)])
  ]

  /** Every catalog entry, category by category. */
  function AllEntries(): (all: seq<PromptModule>)
    ensures |all| == 9
    ensures all == Subjects + Styles + Environments
  {
    Subjects + Styles + Environments
  }

  /** The nine catalog ids are pairwise distinct. */
  lemma IdsDistinct()
    ensures forall i, j :: 0 <= i < j < |AllEntries()| ==> AllEntries()[i].id != AllEntries()[j].id
  {
  }

  /** Each category holds exactly three entries, so the drop indices 0, 1 and 2 are the valid ones. */
  lemma ThreePerCategory()
    ensures |Subjects| == 3 && |Styles| == 3 && |Environments| == 3
  {
  }

  /** The shape every catalog entry has. */
  ghost predicate CatalogShape(m: PromptModule) {
    && |m.attributes.parameters| == 3
    && DistinctKeys(m.attributes.parameters)
    && (forall i :: 0 <= i < 3 ==> 0 <= m.attributes.parameters[i].1 <= 100)
    && m.attributes.coreAttributes.None?
    && m.attributes.dynamicAttributes.None?
  }

  lemma SubjectsWellFormed()
    ensures forall i :: 0 <= i < 3 ==> CatalogShape(Subjects[i])
  {
    assert CatalogShape(Subjects[0]);
    assert CatalogShape(Subjects[1]);
    assert CatalogShape(Subjects[2]);
  }

  lemma StylesWellFormed()
    ensures forall i :: 0 <= i < 3 ==> CatalogShape(Styles[i])
  {
    assert CatalogShape(Styles[0]);
    assert CatalogShape(Styles[1]);
    assert CatalogShape(Styles[2]);
  }

  lemma EnvironmentsWellFormed()
    ensures forall i :: 0 <= i < 3 ==> CatalogShape(Environments[i])
  {
    assert CatalogShape(Environments[0]);
    assert CatalogShape(Environments[1]);
    assert CatalogShape(Environments[2]);
  }

  /** Every entry has three distinct parameters with values in [0, 100], and no core or dynamic attributes. */
  lemma EntriesWellFormed()
    ensures forall i :: 0 <= i < |AllEntries()| ==> CatalogShape(AllEntries()[i])
  {
    SubjectsWellFormed();
    StylesWellFormed();
    EnvironmentsWellFormed();
    forall i | 0 <= i < 9 ensures CatalogShape(AllEntries()[i]) {
      if i < 3 { assert AllEntries()[i] == Subjects[i]; }
      else if i < 6 { assert AllEntries()[i] == Styles[i - 3]; }
      else { assert AllEntries()[i] == Environments[i - 6]; }
    }
  }

  /** The kind of an entry is the kind of its category. */
  lemma KindsUniform()
    ensures forall m :: m in Subjects ==> m.kind == Subject
    ensures forall m :: m in Styles ==> m.kind == Style
    ensures forall m :: m in Environments ==> m.kind == Environment
  {
  }
}
