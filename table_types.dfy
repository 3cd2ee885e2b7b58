/** The declarations the generic table is built from: identifiable rows, column
    descriptors, bulk select actions, and the two variants of the table's props
    (with or without selection) as one sum type. */
module TableTypes {
  import opened Values

  /** A row identifier is a string or a number. */
  datatype Id = StrId(s: string) | NumId(n: int)

  function IdValue(id: Id): Value {
    match id
    case StrId(s) => Str(s)
    case NumId(n) => Num(n)
  }

  /** A row: its identifier and the other named fields it carries. */
  datatype Row = Row(id: Id, fields: map<string, Value>)

  /** `row[name]`: the `id` field, a stored field, or `undefined`. */
  function Field(row: Row, name: string): Value {
    if name == "id" then IdValue(row.id)
    else if name in row.fields then row.fields[name]
    else Undefined
  }

  datatype Align = Left | Right

  /** A column descriptor; a custom render function is only recorded as present. */
  datatype Column = Column(columnLabel: string, key: string, align: Option<Align>, tooltip: Option<string>, hasRender: bool)

  /** A bulk action offered by the toolbar; its click handler and icon are the
      caller's and are not modelled beyond the action's label. */
  datatype SelectAction = SelectAction(actionLabel: string)

  /** The selectable / non-selectable props union: the two companion fields come
      together or not at all. */
  datatype SelectionProps =
    | WithSelection(selectActions: seq<SelectAction>, selectableGateFieldName: string)
    | WithoutSelection

  /** `!!selectableGateFieldName`: a gate field is given and is not the empty string. */
  predicate HasGate(sel: SelectionProps) {
    sel.WithSelection? && sel.selectableGateFieldName != ""
  }

  /** `row[selectableGateFieldName]` is truthy. */
  predicate IsGated(sel: SelectionProps, row: Row)
    requires sel.WithSelection?
  {
    Truthy(Field(row, sel.selectableGateFieldName))
  }

  datatype PaginationProps = PaginationProps(totalItems: nat, itemsPerPage: nat, currentPage: int)
}
