/** The values the toast store keeps: a toast's optional properties, the toast
    itself, the partial toast that an update carries, and the default styles
    that go with each severity. */
module ToastTypes {

  datatype Option<T> = None | Some(value: T)

  /** A React node (title, description, action element). The store never looks
      inside one, so it is an opaque key here. */
  datatype Node = Node(key: nat)

  /** The `variant` property of a toast; the store itself only ever sets `Destructive`. */
  datatype Variant = Default | Destructive

  /** The `onOpenChange` callback a toast carries. */
  datatype OpenChange =
    | DismissOnClose(id: string)  // the closure `createToast` installs: on close, dismiss this id
    | Foreign(tag: nat)           // a callback supplied by the caller; its effects are outside the store

  /** Every property of a toast except its id. `None` is an absent property, so
      the same record serves as the props given to `createToast`, as the fields
      of a stored toast and as the fields of a partial toast. */
  datatype Fields = Fields(
    title: Option<Node>,
    description: Option<Node>,
    action: Option<Node>,
    typeInfo: Option<string>,
    open: Option<bool>,
    variant: Option<Variant>,
    className: Option<string>,
    onOpenChange: Option<OpenChange>)

  const NoFields: Fields := Fields(None, None, None, None, None, None, None, None)

  /** A stored toast (`ToasterToast`): an id and its properties. */
  datatype Toast = Toast(id: string, fields: Fields)

  /** A partial toast (`Partial<ToasterToast>`), as an UPDATE action carries it. */
  datatype Patch = Patch(id: Option<string>, fields: Fields)

  function Pick<T>(base: Option<T>, over: Option<T>): Option<T>
  {
    if over.Some? then over else base
  }

  /** Object spread of `over` after `base`: a property present in `over` wins. */
  function Overlay(base: Fields, over: Fields): Fields
  {
    Fields(
      Pick(base.title, over.title),
      Pick(base.description, over.description),
      Pick(base.action, over.action),
      Pick(base.typeInfo, over.typeInfo),
      Pick(base.open, over.open),
      Pick(base.variant, over.variant),
      Pick(base.className, over.className),
      Pick(base.onOpenChange, over.onOpenChange))
  }

  /** Spreading nothing, or spreading over nothing, changes nothing. */
  lemma OverlayUnit(f: Fields)
    ensures Overlay(f, NoFields) == f
    ensures Overlay(NoFields, f) == f
  {
  }

  /** Spreads compose: `a`, then `b`, then `c` is `a`, then (`b`, then `c`);
      and spreading the same object twice is spreading it once. */
  lemma OverlayAssociativeIdempotent(a: Fields, b: Fields, c: Fields)
    ensures Overlay(Overlay(a, b), c) == Overlay(a, Overlay(b, c))
    ensures Overlay(Overlay(a, b), b) == Overlay(a, b)
  {
  }

  /** The ids of a list of toasts, in order. */
  function Ids(s: seq<Toast>): seq<string>
  {
    seq(|s|, i requires 0 <= i < |s| => s[i].id)
  }

  /** No two toasts of the list share an id. */
  predicate UniqueIds(s: seq<Toast>)
  {
    forall i, j :: 0 <= i < j < |s| ==> s[i].id != s[j].id
  }

  // ---------------------------------------------------------------------
  // Default styles per severity (`getToastStyles`) and the typed shortcuts
  // ---------------------------------------------------------------------

  const SuccessClass := "bg-green-500 text-white border-green-600"
  const ErrorClass := "bg-red-500 text-white border-red-600"
  const WarningClass := "bg-yellow-500 text-black border-yellow-600"
  const InfoClass := "bg-blue-500 text-white border-blue-600"

  /** The four severities that have a typed shortcut (`toast.success` and so on). */
  datatype Severity = Success | Error | Warning | Info
  {
    /** The `type_info` string the shortcut stores and passes to `getToastStyles`. */
    function Name(): string
    {
      match this
      case Success => "success"
      case Error => "error"
      case Warning => "warning"
      case Info => "info"
    }

    function ClassName(): string
    {
      match this
      case Success => SuccessClass
      case Error => ErrorClass
      case Warning => WarningClass
      case Info => InfoClass
    }
  }

  /** `getToastStyles(type)`: the default style record for a type string. Only
      `className` and `variant` are ever set; `variant` only for "error"; any
      other string yields the empty record. */
  function ToastStyles(kind: string): (r: Fields)
    ensures r.variant == (if kind == "error" then Some(Destructive) else None)
    ensures r.className.Some? <==> exists s: Severity :: s.Name() == kind
    ensures forall s: Severity :: s.Name() == kind ==> r.className == Some(s.ClassName())
    ensures r.(className := None, variant := None) == NoFields
  {
    match kind
    case "success" => assert Success.Name() == kind; NoFields.(className := Some(SuccessClass))
    case "error" =>
      assert Error.Name() == kind;
      NoFields.(variant := Some(Destructive), className := Some(ErrorClass))
    case "warning" => assert Warning.Name() == kind; NoFields.(className := Some(WarningClass))
    case "info" => assert Info.Name() == kind; NoFields.(className := Some(InfoClass))
    case _ => NoFields
  }

  /** The props a typed shortcut hands to `createToast`:
      the caller's props, then the type name, then the style record for it. */
  function ShortcutProps(sev: Severity, props: Fields): Fields
  {
    Overlay(Overlay(props, NoFields.(typeInfo := Some(sev.Name()))), ToastStyles(sev.Name()))
  }

  /** A shortcut only fills in the type and its style: title, description,
      action, visibility and callback come from the caller untouched, and the
      caller's variant survives except for "error", which forces destructive. */
  lemma ShortcutOnlyStyles(sev: Severity, props: Fields)
    ensures var p := ShortcutProps(sev, props);
      && p.title == props.title && p.description == props.description
      && p.action == props.action && p.open == props.open
      && p.onOpenChange == props.onOpenChange
      && p.typeInfo == Some(sev.Name())
      && p.className == Some(sev.ClassName())
      && p.variant == (if sev == Error then Some(Destructive) else props.variant)
  {
    var styles := ToastStyles(sev.Name());
    assert styles.className == Some(sev.ClassName());
  }

  /** Each severity gets a style of its own. */
  lemma SeverityStylesDistinct(s: Severity, t: Severity)
    requires s != t
    ensures ToastStyles(s.Name()) != ToastStyles(t.Name())
  {
    assert ToastStyles(s.Name()).className == Some(s.ClassName());
    assert ToastStyles(t.Name()).className == Some(t.ClassName());
  }
}
