/**
 * The column-configuration dialog of src/components/school-admin/ColumnSelector.tsx: start
 * from a template or the default pair of columns, toggle columns, and hand the selection
 * to the caller. Templates come from the database and are parameters here.
 */
module ColumnSelector {
  import opened Wrappers
  import opened Lists

  datatype ColumnDefinition = ColumnDefinition(id: string, displayName: string, required: bool, category: string)

  /** The dialog's column catalogue, in definition order. */
  const AllColumns: seq<ColumnDefinition> := [
    ColumnDefinition("full_name", "Full Name", true, "essential"),
    ColumnDefinition("student_id", "Student ID", false, "essential"),
    ColumnDefinition("class_name", "Class/Grade", true, "essential"),
    ColumnDefinition("date_of_birth", "Date of Birth", false, "essential"),
    ColumnDefinition("gender", "Gender", false, "essential"),
    ColumnDefinition("parent_name", "Parent Name", false, "contact"),
    ColumnDefinition("parent_phone", "Parent Phone", false, "contact"),
    ColumnDefinition("parent_email", "Parent Email", false, "contact"),
    ColumnDefinition("home_address", "Home Address", false, "contact"),
    ColumnDefinition("emergency_contact", "Emergency Contact", false, "contact"),
    ColumnDefinition("admission_date", "Admission Date", false, "academic"),
    ColumnDefinition("academic_year", "Academic Year", false, "academic"),
    ColumnDefinition("transportation", "Transportation", false, "academic"),
    ColumnDefinition("medical_conditions", "Medical Conditions", false, "additional"),
    ColumnDefinition("allergies", "Allergies", false, "additional"),
    ColumnDefinition("notes", "Notes", false, "additional")
  ]

  const DefaultSelection: seq<string> := ["full_name", "class_name"]

  datatype ColumnTemplate = ColumnTemplate(id: string, columns: seq<ColumnDefinition>)

  datatype Step = TemplateStep | Customize | PreviewStep

  datatype SelectorState = SelectorState(selectedColumns: seq<string>, selectedTemplate: Option<string>, step: Step)

  function Initial(): SelectorState
  {
    SelectorState(DefaultSelection, None, TemplateStep)
  }

  function IdOf(c: ColumnDefinition): string
  {
    c.id
  }

  /** `handleTemplateSelect`: the template's column ids, in its order, replace the selection. */
  function TemplateSelected(s: SelectorState, template: ColumnTemplate): (r: SelectorState)
    ensures |r.selectedColumns| == |template.columns|
    ensures forall i :: 0 <= i < |template.columns| ==> r.selectedColumns[i] == template.columns[i].id
    ensures r.selectedTemplate == Some(template.id) && r.step == Customize
  {
    SelectorState(Map(template.columns, IdOf), Some(template.id), Customize)
  }

  /** `handleColumnToggle`; a required column is toggled like any other. */
  function ColumnToggled(s: SelectorState, columnId: string): SelectorState
  {
    s.(selectedColumns := Toggle(s.selectedColumns, columnId))
  }

  /** Toggle flips only the toggled id, required or not, and keeps the selection free of repeats. */
  lemma ColumnToggleRule(s: SelectorState, columnId: string)
    ensures columnId in ColumnToggled(s, columnId).selectedColumns <==> columnId !in s.selectedColumns
    ensures forall c :: c != columnId ==> (c in ColumnToggled(s, columnId).selectedColumns <==> c in s.selectedColumns)
    ensures NoDup(s.selectedColumns) ==> NoDup(ColumnToggled(s, columnId).selectedColumns)
    ensures ColumnToggled(s, columnId).step == s.step && ColumnToggled(s, columnId).selectedTemplate == s.selectedTemplate
  {
    ToggleMembership(s.selectedColumns, columnId);
    if NoDup(s.selectedColumns) {
      ToggleNoDup(s.selectedColumns, columnId);
    }
  }

  /** The back link of the customise step. */
  function BackToTemplates(s: SelectorState): SelectorState
  {
    s.(step := TemplateStep)
  }

  /** Continue: disabled on an empty selection, otherwise the selection is handed over unchanged. */
  function Continued(s: SelectorState): (r: Option<seq<string>>)
    ensures r.Some? <==> |s.selectedColumns| > 0
    ensures r.Some? ==> r.value == s.selectedColumns
  {
    if |s.selectedColumns| == 0 then None else Some(s.selectedColumns)
  }

  /** The catalogue grouped by category, buckets in first-appearance order. */
  function GroupedColumns(columns: seq<ColumnDefinition>): seq<(string, seq<ColumnDefinition>)>
  {
    GroupBy(columns, (c: ColumnDefinition) => c.category)
  }

  /** Each catalogue entry sits in exactly its category's bucket, and each bucket keeps definition order. */
  lemma GroupedColumnsRule(columns: seq<ColumnDefinition>, c: ColumnDefinition)
    requires c in columns
    ensures var g := GroupedColumns(columns);
      && NoDup(Keys(g)) && c.category in Keys(g)
      && (forall i :: 0 <= i < |g| ==> (c in g[i].1 <==> g[i].0 == c.category))
      && (forall i :: 0 <= i < |g| ==> g[i].1 == Filter(columns, KeyIs((d: ColumnDefinition) => d.category, g[i].0)))
  {
    GroupedOnce(columns, (d: ColumnDefinition) => d.category, c);
    GroupByCorrect(columns, (d: ColumnDefinition) => d.category);
  }

  class ColumnSelectorDialog {
    var selectedColumns: seq<string>
    var selectedTemplate: Option<string>
    var step: Step

    function State(): SelectorState
      reads this
    {
      SelectorState(selectedColumns, selectedTemplate, step)
    }

    constructor()
      ensures State() == Initial()
    {
      selectedColumns := DefaultSelection;
      selectedTemplate := None;
      step := TemplateStep;
    }

    method HandleTemplateSelect(template: ColumnTemplate)
      modifies this
      ensures State() == TemplateSelected(old(State()), template)
    {
      var ids: seq<string> := [];
      for i := 0 to |template.columns|
        invariant ids == Map(template.columns[..i], IdOf)
      {
        MapSnoc(template.columns[..i], template.columns[i], IdOf);
        assert template.columns[..i + 1] == template.columns[..i] + [template.columns[i]];
        ids := ids + [template.columns[i].id];
      }
      assert template.columns[..|template.columns|] == template.columns;
      selectedColumns := ids;
      selectedTemplate := Some(template.id);
      step := Customize;
    }

    method HandleColumnToggle(columnId: string)
      modifies this
      ensures State() == ColumnToggled(old(State()), columnId)
    {
      if columnId in selectedColumns {
        selectedColumns := Remove(selectedColumns, columnId);
      } else {
        selectedColumns := selectedColumns + [columnId];
      }
    }

    method HandleBack()
      modifies this
      ensures State() == BackToTemplates(old(State()))
    {
      step := TemplateStep;
    }

    /** The continue button; `None` when it is disabled. */
    method HandleContinue() returns (handedOver: Option<seq<string>>)
      ensures handedOver == Continued(State())
    {
      if |selectedColumns| == 0 {
        handedOver := None;
      } else {
        handedOver := Some(selectedColumns);
      }
    }
  }
}
