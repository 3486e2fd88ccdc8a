/**
 * The customer's assigned-property list: which property starts selected,
 * which one the details pane shows, and the empty state. The address and
 * status labels are the shared helpers of `PropertyDisplay`.
 */
module UserPropertyList {
  import opened Wrappers
  import opened Seqs
  import opened PropertyTableModel

  /** What the component renders. */
  datatype View = NoPropertiesCard | Listing(selected: Option<ListedProperty>)

  function IdIs(id: string): ListedProperty -> bool {
    (p: ListedProperty) => p.id == id
  }

  /** The initial `selectedPropertyId`: the first property's id, or null for an empty list. */
  function InitialSelection(properties: seq<ListedProperty>): (sel: Option<string>)
    ensures sel.None? <==> |properties| == 0
    ensures sel.Some? ==> sel.value == properties[0].id
  {
    if |properties| > 0 then Some(properties[0].id) else None
  }

  /** `properties.find((p) => p.id === selectedPropertyId) || null`; no id equals null. */
  function SelectedProperty(properties: seq<ListedProperty>, sel: Option<string>): (r: Option<ListedProperty>)
    ensures r.None? <==> sel.None? || forall i :: 0 <= i < |properties| ==> properties[i].id != sel.value
    ensures r.Some? ==> r.value in properties && sel == Some(r.value.id)
  {
    if sel.None? then None else FindFirst(properties, IdIs(sel.value))
  }

  /** The component: the "No Properties" card alone for an empty list, else the list with its details pane. */
  function Render(properties: seq<ListedProperty>, sel: Option<string>): (v: View)
    ensures v.NoPropertiesCard? <==> |properties| == 0
    ensures v.Listing? ==> v.selected == SelectedProperty(properties, sel)
  {
    if |properties| == 0 then NoPropertiesCard else Listing(SelectedProperty(properties, sel))
  }

  /** On first render a non-empty list shows the first property's details. */
  lemma FirstPropertyShownInitially(properties: seq<ListedProperty>)
    requires |properties| > 0
    ensures Render(properties, InitialSelection(properties)) == Listing(Some(properties[0]))
  {
  }

  /**
   * Clicking a property (selecting its id) shows that property, when ids
   * are unique as the primary key makes them.
   */
  lemma ClickShowsProperty(properties: seq<ListedProperty>, i: nat)
    requires i < |properties|
    requires forall j, k :: 0 <= j < k < |properties| ==> properties[j].id != properties[k].id
    ensures Render(properties, Some(properties[i].id)) == Listing(Some(properties[i]))
  {
    var r := SelectedProperty(properties, Some(properties[i].id));
    assert r.Some?;
    var j :| 0 <= j < |properties| && properties[j] == r.value;
    assert properties[j].id == properties[i].id;
  }
}
