/**
 * Action buttons under an AI chat message. Each built-in action type has
 * a default icon, label and handler; the caller's config is spread over the
 * defaults field by field, and a `custom` action gets no defaults at all.
 * Icons and handlers are opaque tokens: a handler is only ever invoked.
 */
module MessageActions {
  import opened Wrappers

  datatype ActionType = Copy | Like | Dislike | Retry | Delete | Share | Custom

  datatype Icon = CopyIcon | ThumbsUpIcon | ThumbsDownIcon | RefreshIcon | TrashIcon | ShareIcon | CallerIcon(id: nat)

  /** A built-in handler of one type, or one the caller supplied. */
  datatype Handler = BuiltIn(action: ActionType) | CallerHandler(id: nat)

  /** An optional property of a JavaScript object literal: left out, spelled out as `undefined`, or set. */
  datatype Prop<T> = Missing | Undefined | Set(value: T)

  datatype Config = Config(
    kind: ActionType,
    icon: Prop<Icon>,
    labelText: Prop<string>,
    handler: Prop<Handler>,
    disabled: Prop<bool>)

  /** A configuration without its type: what the table of built-ins holds. */
  datatype Defaults = Defaults(icon: Prop<Icon>, labelText: Prop<string>, handler: Prop<Handler>, disabled: Prop<bool>)

  function BuiltInDefaults(t: ActionType): (d: Defaults)
    requires t != Custom
    ensures d.icon.Set? && d.labelText.Set? && d.labelText.value != []
    ensures d.handler == Set(BuiltIn(t))
    ensures d.disabled.Missing?
  {
    match t
    case Copy => Defaults(Set(CopyIcon), Set("Copy message"), Set(BuiltIn(Copy)), Missing)
    case Like => Defaults(Set(ThumbsUpIcon), Set("Like message"), Set(BuiltIn(Like)), Missing)
    case Dislike => Defaults(Set(ThumbsDownIcon), Set("Dislike message"), Set(BuiltIn(Dislike)), Missing)
    case Retry => Defaults(Set(RefreshIcon), Set("Retry generation"), Set(BuiltIn(Retry)), Missing)
    case Delete => Defaults(Set(TrashIcon), Set("Delete message"), Set(BuiltIn(Delete)), Missing)
    case Share => Defaults(Set(ShareIcon), Set("Share message"), Set(BuiltIn(Share)), Missing)
  }

  /** One property of `{ ...base, ...over }`: a key present in `over` wins, even with the value `undefined`. */
  function Spread<T>(base: Prop<T>, over: Prop<T>): Prop<T>
  {
    if over.Missing? then base else over
  }

  /** Reading a property: `undefined` whether it was left out or spelled out. */
  function Read<T>(p: Prop<T>): Option<T>
  {
    if p.Set? then Some(p.value) else None
  }

  /** The configuration an action button uses. */
  function Merge(c: Config): (m: Config)
    ensures m.kind == c.kind
    ensures m.disabled == c.disabled
  {
    if c.kind == Custom then c
    else
      var d := BuiltInDefaults(c.kind);
      Config(c.kind, Spread(d.icon, c.icon), Spread(d.labelText, c.labelText), Spread(d.handler, c.handler), Spread(d.disabled, c.disabled))
  }

  /** The invocation of a handler with the message text, if there is one. */
  datatype Call = Call(handler: Handler, message: Option<string>)

  /** The handler invocations one click makes. */
  function ClickCalls(c: Config, message: Option<string>): (calls: seq<Call>)
    ensures |calls| <= 1
  {
    var m := Merge(c);
    if m.handler.Set? then [Call(m.handler.value, message)] else []
  }

  /** What a built-in handler asks of the browser. */
  datatype Effect = WriteClipboard(text: string) | ShareText(text: string)

  /**
   * The effect of running a built-in handler: copy and share act only on a
   * non-empty message and only when the browser offers the API; the others do nothing.
   */
  function BuiltInEffect(t: ActionType, message: Option<string>, hasClipboard: bool, hasShare: bool): (e: Option<Effect>)
    ensures e.Some? ==> message.Some? && message.value != [] && (t == Copy || t == Share)
    ensures e.Some? && t == Copy ==> e.value == WriteClipboard(message.value) && hasClipboard
    ensures e.Some? && t == Share ==> e.value == ShareText(message.value) && hasShare
  {
    if message.Some? && message.value != [] && t == Copy && hasClipboard then Some(WriteClipboard(message.value))
    else if message.Some? && message.value != [] && t == Share && hasShare then Some(ShareText(message.value))
    else None
  }

  /** What the button shows and whether it is disabled. */
  datatype Button = Button(title: Option<string>, icon: Option<Icon>, disabled: bool)

  function ButtonOf(c: Config): (b: Button)
    ensures b.title.Some? <==> Merge(c).labelText.Set?
    ensures b.icon.Some? <==> Merge(c).icon.Set?
    ensures b.disabled <==> c.disabled == Set(true)
  {
    var m := Merge(c);
    Button(Read(m.labelText), Read(m.icon), Read(c.disabled) == Some(true))
  }

  // ------------------------------------------------------------- the bar

  datatype Position = Top | Bottom
  datatype Display = Always | Hover
  datatype Align = Left | Right

  datatype ActionsProps = ActionsProps(
    actions: Option<seq<Config>>,
    position: Option<Position>,
    display: Option<Display>,
    align: Option<Align>,
    message: Option<string>)

  /** One rendered action: its React key, its config and the message it acts on. */
  datatype Rendered = Rendered(key: string, config: Config, message: Option<string>)

  datatype Bar = Bar(position: Position, display: Display, align: Align, buttons: seq<Rendered>)

  function TypeName(t: ActionType): string
  {
    match t
    case Copy => "copy"
    case Like => "like"
    case Dislike => "dislike"
    case Retry => "retry"
    case Delete => "delete"
    case Share => "share"
    case Custom => "custom"
  }

  /** Decimal digits of `n`, as a template literal prints it. */
  function NatToString(n: nat): (s: string)
    ensures |s| >= 1
    ensures forall k :: 0 <= k < |s| ==> '0' <= s[k] <= '9'
    decreases n
  {
    var digit := ('0' as int + n % 10) as char;
    if n < 10 then [digit] else NatToString(n / 10) + [digit]
  }

  /** Reads back a string of decimal digits. */
  function ParseNat(s: string): nat
    requires forall k :: 0 <= k < |s| ==> '0' <= s[k] <= '9'
  {
    if s == [] then 0 else ParseNat(s[..|s| - 1]) * 10 + (s[|s| - 1] as int - '0' as int)
  }

  /** The key `${type}-${index}`. */
  function Key(t: ActionType, index: nat): (k: string)
    ensures |k| > |TypeName(t)| + 1
    ensures k[..|TypeName(t)|] == TypeName(t) && k[|TypeName(t)|] == '-'
    ensures forall j :: |TypeName(t)| < j < |k| ==> '0' <= k[j] <= '9'
    ensures ParseNat(k[|TypeName(t)| + 1..]) == index
  {
    var k := TypeName(t) + "-" + NatToString(index);
    ParseNatToString(index);
    DashJoin(TypeName(t), NatToString(index));
    k
  }

  /** How `a + "-" + d` splits back into `a` and `d`. */
  lemma DashJoin(a: string, d: string)
    ensures |a + "-" + d| == |a| + 1 + |d|
    ensures (a + "-" + d)[..|a|] == a && (a + "-" + d)[|a|] == '-'
    ensures (a + "-" + d)[|a| + 1..] == d
    ensures forall j :: |a| < j < |a + "-" + d| ==> (a + "-" + d)[j] == d[j - |a| - 1]
  {
  }

  /** AIMessageActions: the defaults of each property, then one button per action, in order. */
  function RenderActions(p: ActionsProps): (bar: Bar)
    ensures p.actions.None? ==> bar.buttons == []
    ensures bar.position == (if p.position.Some? then p.position.value else Bottom)
    ensures bar.display == (if p.display.Some? then p.display.value else Hover)
    ensures bar.align == (if p.align.Some? then p.align.value else Right)
  {
    var actions := if p.actions.Some? then p.actions.value else [];
    Bar(
      if p.position.Some? then p.position.value else Bottom,
      if p.display.Some? then p.display.value else Hover,
      if p.align.Some? then p.align.value else Right,
      seq(|actions|, k requires 0 <= k < |actions| => Rendered(Key(actions[k].kind, k), actions[k], p.message)))
  }

  /** AIMessageAvatar's fallback: the first two characters of the name, or `ME` without a name. */
  function AvatarFallback(name: Option<string>): (r: string)
    ensures 1 <= |r| <= 2
    ensures name.Some? && name.value != [] ==> r <= name.value && |r| == (if |name.value| < 2 then |name.value| else 2)
    ensures name.None? || name.value == [] ==> r == "ME"
  {
    if name.Some? && |name.value| > 0 then name.value[..if |name.value| < 2 then |name.value| else 2] else "ME"
  }

  // ------------------------------------------------------------ properties

  /** For a built-in type each field is the caller's when the caller wrote it, the built-in default otherwise. */
  lemma MergeFieldByField(c: Config)
    requires c.kind != Custom
    ensures var m, d := Merge(c), BuiltInDefaults(c.kind);
      && (c.icon.Missing? ==> m.icon == d.icon) && (!c.icon.Missing? ==> m.icon == c.icon)
      && (c.labelText.Missing? ==> m.labelText == d.labelText) && (!c.labelText.Missing? ==> m.labelText == c.labelText)
      && (c.handler.Missing? ==> m.handler == d.handler) && (!c.handler.Missing? ==> m.handler == c.handler)
  {
  }

  /** A custom action is used exactly as given. */
  lemma CustomUnchanged(c: Config)
    requires c.kind == Custom
    ensures Merge(c) == c
  {
  }

  /** No built-in sets `disabled`, so the button is disabled exactly when the caller says so. */
  lemma DisabledOnlyFromCaller(c: Config)
    ensures ButtonOf(c).disabled <==> c.disabled == Set(true)
    ensures c.kind != Custom ==> BuiltInDefaults(c.kind).disabled.Missing?
  {
  }

  /** A built-in action the caller did not blank out always has a title, an icon and a handler. */
  lemma BuiltInComplete(c: Config)
    requires c.kind != Custom
    requires !c.icon.Undefined? && !c.labelText.Undefined? && !c.handler.Undefined?
    ensures ButtonOf(c).title.Some? && ButtonOf(c).icon.Some?
    ensures Merge(c).handler.Set?
  {
  }

  /** A click calls the merged handler exactly once, with the message; with no handler it does nothing. */
  lemma ClickInvokesHandlerOnce(c: Config, message: Option<string>)
    ensures |ClickCalls(c, message)| == 1 <==> Merge(c).handler.Set?
    ensures ClickCalls(c, message) == [] <==> !Merge(c).handler.Set?
    ensures c.kind != Custom && c.handler.Missing? ==> ClickCalls(c, message) == [Call(BuiltIn(c.kind), message)]
    ensures c.handler.Set? ==> ClickCalls(c, message) == [Call(c.handler.value, message)]
    ensures c.kind == Custom && !c.handler.Set? ==> ClickCalls(c, message) == []
  {
  }

  /** Spelling a handler out as `undefined` hides the built-in one: the click then does nothing. */
  lemma UndefinedHandlerMasksDefault(t: ActionType, message: Option<string>)
    requires t != Custom
    ensures ClickCalls(Config(t, Missing, Missing, Undefined, Missing), message) == []
    ensures ClickCalls(Config(t, Missing, Missing, Missing, Missing), message) == [Call(BuiltIn(t), message)]
  {
  }

  /** The built-in labels, which also serve as the button titles. */
  lemma BuiltInTitles()
    ensures ButtonOf(Config(Copy, Missing, Missing, Missing, Missing)).title == Some("Copy message")
    ensures ButtonOf(Config(Retry, Missing, Missing, Missing, Missing)).title == Some("Retry generation")
    ensures ButtonOf(Config(Custom, Missing, Missing, Missing, Missing)).title == None
  {
  }

  /** Clicking a default copy or share button hands the whole message to the browser when it can take it. */
  lemma DefaultCopyAndShare(message: string)
    requires message != []
    ensures ClickCalls(Config(Copy, Missing, Missing, Missing, Missing), Some(message)) == [Call(BuiltIn(Copy), Some(message))]
    ensures BuiltInEffect(Copy, Some(message), true, false) == Some(WriteClipboard(message))
    ensures BuiltInEffect(Share, Some(message), false, true) == Some(ShareText(message))
    ensures BuiltInEffect(Copy, None, true, true) == None && BuiltInEffect(Share, Some([]), true, true) == None
  {
  }

  lemma {:induction false} ParseNatToString(n: nat)
    ensures ParseNat(NatToString(n)) == n
    decreases n
  {
    var s := NatToString(n);
    if n >= 10 {
      ParseNatToString(n / 10);
      assert s[..|s| - 1] == NatToString(n / 10);
    } else {
      assert s[..|s| - 1] == [];
    }
  }

  lemma NatToStringInjective(a: nat, b: nat)
    requires NatToString(a) == NatToString(b)
    ensures a == b
  {
    ParseNatToString(a);
    ParseNatToString(b);
  }

  lemma NoDashInKeyParts(t: ActionType, n: nat)
    ensures '-' !in TypeName(t)
    ensures '-' !in NatToString(n)
  {
  }

  /** Text joined by a dash splits back at the first dash when the first part holds none. */
  lemma SplitAtFirstDash(a: string, x: string, b: string, y: string)
    requires '-' !in a && '-' !in b
    requires a + "-" + x == b + "-" + y
    ensures a == b && x == y
  {
    var key := a + "-" + x;
    assert key[|a|] == '-' && forall k :: 0 <= k < |a| ==> key[k] == a[k];
    assert key[|b|] == '-' && forall k :: 0 <= k < |b| ==> key[k] == b[k];
    assert a == key[..|a|] == b;
    assert x == key[|a| + 1..] == y;
  }

  /** A key determines its action's type and position. */
  lemma KeyInjective(t1: ActionType, i1: nat, t2: ActionType, i2: nat)
    requires Key(t1, i1) == Key(t2, i2)
    ensures t1 == t2 && i1 == i2
  {
    NoDashInKeyParts(t1, i1);
    NoDashInKeyParts(t2, i2);
    SplitAtFirstDash(TypeName(t1), NatToString(i1), TypeName(t2), NatToString(i2));
    NatToStringInjective(i1, i2);
  }

  /** Buttons keep the input order and carry pairwise distinct keys. */
  lemma RenderedInOrderWithDistinctKeys(p: ActionsProps)
    requires p.actions.Some?
    ensures |RenderActions(p).buttons| == |p.actions.value|
    ensures forall k :: 0 <= k < |p.actions.value| ==>
      RenderActions(p).buttons[k].config == p.actions.value[k] && RenderActions(p).buttons[k].message == p.message
    ensures forall j, k :: 0 <= j < k < |p.actions.value| ==> RenderActions(p).buttons[j].key != RenderActions(p).buttons[k].key
  {
    var buttons := RenderActions(p).buttons;
    var actions := p.actions.value;
    forall j, k | 0 <= j < k < |actions| ensures buttons[j].key != buttons[k].key {
      if buttons[j].key == buttons[k].key {
        KeyInjective(actions[j].kind, j, actions[k].kind, k);
      }
    }
  }
}
