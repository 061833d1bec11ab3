/**
 * TinyVFL: a typed builder for Auto Layout Visual Format Language strings.
 *
 * A layout is a direction plus an ordered list of items (views with an
 * optional size, the super view, spaces).  The builder renders it as a
 * format string and collects the name-to-view dictionary that the platform's
 * constraint factory needs alongside it.
 */
module TinyVfl {
  import opened Wrappers
  import Decimal

  /** A Swift `Double`; the model never looks inside a number. */
  type Double(==, !new)

  /** The text string interpolation gives a `Double`; left uninterpreted. */
  const NumStr: Double -> string

  /** One flag of `NSLayoutConstraint.FormatOptions`; passed through untouched. */
  type FormatOption(==)

  /** An option set: `[]` is the empty set. */
  type FormatOptions = set<FormatOption>

  /**
   * A view, known to the builder only through its hash value.  Two views are
   * the same view exactly when their hashes agree, so the model does not
   * capture hash collisions.
   */
  datatype ViewId = ViewId(hash: int) {

    /** `vflName`: the name a view has in the format string and in the dictionary. */
    function Name(): (r: string)
      ensures |r| > 4 && r[..4] == "view"
      ensures forall k :: 4 <= k < |r| ==> r[k] == '-' || Decimal.IsDigit(r[k])
      ensures Decimal.ParseInt(r[4..]) == Some(hash)
    {
      var digits := Decimal.IntStr(hash);
      Decimal.IntStrRoundTrip(hash);
      assert ("view" + digits)[4..] == digits;
      "view" + digits
    }
  }

  /** Distinct views have distinct names. */
  lemma NameInjective(a: ViewId, b: ViewId)
    ensures a.Name() == b.Name() <==> a == b
  {
    if a.Name() == b.Name() {
      assert a.Name()[4..] == Decimal.IntStr(a.hash);
      assert b.Name()[4..] == Decimal.IntStr(b.hash);
      Decimal.IntStrInjective(a.hash, b.hash);
    }
  }

  datatype Direction = Vertical | Horizontal {

    /** The orientation prefix of a format string. */
    function String(): (r: string)
      ensures r == "V:" <==> this == Vertical
      ensures r == "H:" <==> this == Horizontal
    {
      match this
      case Vertical => "V:"
      case Horizontal => "H:"
    }
  }

  /** A gap (or a length) with an optional distance and an optional priority. */
  datatype Space = Space(space: Option<Double>, priority: Option<Double>) {

    /** `Space.space(_:priority:)`. */
    static function Of(space: Double, priority: Option<Double> := None): (r: Space)
      ensures r.space == Some(space) && r.priority == priority
      ensures r.SpaceString() == "-(" + NumStr(space)
        + PrioritySuffix(priority) + ")-"
    {
      Space(Some(space), priority)
    }

    /** `Space.space(_:)` with an optional distance: never a priority. */
    static function OfOptional(space: Option<Double>): (r: Space)
      ensures r.space == space && r.priority == None
      ensures space.None? ==> r.SpaceString() == "-"
      ensures space.Some? ==> r.SpaceString() == "-(" + NumStr(space.value) + ")-"
    {
      Space(space, None)
    }

    /** `vflSizeString`: the parenthesised length, or nothing without a distance. */
    function SizeString(): (r: string)
      ensures r == "" <==> space.None?
      ensures r != "" ==> r[0] == '(' && r[|r| - 1] == ')'
    {
      match space
      case None => ""
      case Some(d) =>
        match priority
        case None => "(" + NumStr(d) + ")"
        case Some(p) => "(" + NumStr(d) + "@" + NumStr(p) + ")"
    }

    /** `vflSpaceString`: a connection between two neighbouring items. */
    function SpaceString(): (r: string)
      ensures space.None? ==> r == "-"
      ensures space.Some? && priority.None? ==> r == "-(" + NumStr(space.value) + ")-"
      ensures space.Some? && priority.Some? ==>
        r == "-(" + NumStr(space.value) + "@" + NumStr(priority.value) + ")-"
    {
      var sizeString := SizeString();
      if sizeString == "" then "-" else "-" + sizeString + "-"
    }
  }

  /** The size of a view: a fixed length, or equal to another view's. */
  datatype Size = Fixed(space: Space) | Equal(view: ViewId, priority: Option<Double>) {

    /** `Size.size(_:priority:)`. */
    static function FixedSize(size: Double, priority: Option<Double> := None): (r: Size)
      ensures r.Fixed? && r.space.space == Some(size) && r.space.priority == priority
      ensures r.String() == "(" + NumStr(size)
        + PrioritySuffix(priority) + ")"
    {
      Fixed(Space.Of(size, priority))
    }

    /** `Size.size(equal:priority:)`. */
    static function EqualSize(view: ViewId, priority: Option<Double> := None): (r: Size)
      ensures r.Equal? && r.view == view && r.priority == priority
      ensures r.String() == "(==" + view.Name()
        + PrioritySuffix(priority) + ")"
    {
      Equal(view, priority)
    }

    /** `Size.string`: the size suffix written after a view's name. */
    function String(): (r: string)
      ensures r == "" <==> Fixed? && space.space.None?
      ensures Fixed? ==> r == space.SizeString()
      ensures Equal? && priority.None? ==> r == "(==" + view.Name() + ")"
      ensures Equal? && priority.Some? ==> r == "(==" + view.Name() + "@" + NumStr(priority.value) + ")"
    {
      match this
      case Fixed(space) => space.SizeString()
      case Equal(view, None) => "(==" + view.Name() + ")"
      case Equal(view, Some(priority)) => "(==" + view.Name() + "@" + NumStr(priority) + ")"
    }
  }

  /** `VFLItem`: one slot of a layout (the `Content` enum it wraps). */
  datatype Item = ViewItem(primary: ViewId, size: Option<Size>) | SuperViewItem | SpaceItem(space: Space) {

    /** `VFLItem.superView`. */
    static function SuperView(): (r: Item)
      ensures r.String() == "|" && r.PrimaryView() == None
    {
      SuperViewItem
    }

    /** `view(_:size:)` with an optional length: `nil` gives a view without size. */
    static function View(view: ViewId, size: Option<Double> := None): (r: Item)
      ensures r.PrimaryView() == Some(view)
      ensures size.None? ==> r == ViewItem(view, None) && r.String() == "[" + view.Name() + "]"
      ensures size.Some? ==> r.String() == "[" + view.Name() + "(" + NumStr(size.value) + ")]"
    {
      var viewSize: Option<Size> := if size.Some? then Some(Size.FixedSize(size.value)) else None;
      ViewItemRendering(view, viewSize);
      ViewItem(view, viewSize)
    }

    /** `view(_:size:priority:)`. */
    static function ViewSized(view: ViewId, size: Double, priority: Option<Double> := None): (r: Item)
      ensures r.PrimaryView() == Some(view)
      ensures r.String() == "[" + view.Name() + "(" + NumStr(size)
        + PrioritySuffix(priority) + ")]"
    {
      var sized := Size.FixedSize(size, priority);
      ViewItemRendering(view, Some(sized));
      ViewItem(view, Some(sized))
    }

    /** `view(_:equal:priority:)`. */
    static function ViewEqual(view: ViewId, equal: ViewId, priority: Option<Double> := None): (r: Item)
      ensures r.PrimaryView() == Some(view)
      ensures r.String() == "[" + view.Name() + "(==" + equal.Name()
        + PrioritySuffix(priority) + ")]"
    {
      var sized := Size.EqualSize(equal, priority);
      ViewItemRendering(view, Some(sized));
      ViewItem(view, Some(sized))
    }

    /** `space(_:)` with an optional distance: `nil` is the standard spacing `-`. */
    static function Spacer(space: Option<Double> := None): (r: Item)
      ensures r.PrimaryView() == None
      ensures space.None? ==> r.String() == "-"
      ensures space.Some? ==> r.String() == "-(" + NumStr(space.value) + ")-"
    {
      SpaceItem(Space.OfOptional(space))
    }

    /** `space(_:priority:)`. */
    static function SpacerSized(space: Double, priority: Option<Double> := None): (r: Item)
      ensures r.PrimaryView() == None
      ensures r.String() == "-(" + NumStr(space)
        + PrioritySuffix(priority) + ")-"
    {
      SpaceItem(Space.Of(space, priority))
    }

    /** The four edge names are all the one super-view item. */
    static function Top(): (r: Item)
      ensures r.String() == "|" && r.PrimaryView() == None
    {
      SuperView()
    }

    static function Bottom(): (r: Item)
      ensures r.String() == "|" && r.PrimaryView() == None
    {
      SuperView()
    }

    static function Left(): (r: Item)
      ensures r.String() == "|" && r.PrimaryView() == None
    {
      SuperView()
    }

    static function Right(): (r: Item)
      ensures r.String() == "|" && r.PrimaryView() == None
    {
      SuperView()
    }

    /** Short alias `v(_:_:)` of `view(_:size:)`. */
    static function V(view: ViewId, size: Option<Double> := None): (r: Item)
      ensures r.PrimaryView() == Some(view)
      ensures size.None? ==> r == ViewItem(view, None) && r.String() == "[" + view.Name() + "]"
      ensures size.Some? ==> r.String() == "[" + view.Name() + "(" + NumStr(size.value) + ")]"
    {
      View(view, size)
    }

    /** Short alias `v(_:_:p:)` of `view(_:size:priority:)`. */
    static function VSized(view: ViewId, size: Double, p: Option<Double> := None): (r: Item)
      ensures r.PrimaryView() == Some(view)
      ensures r.String() == "[" + view.Name() + "(" + NumStr(size) + PrioritySuffix(p) + ")]"
    {
      ViewSized(view, size, p)
    }

    /** Short alias `v(_:e:p:)` of `view(_:equal:priority:)`. */
    static function VEqual(view: ViewId, e: ViewId, p: Option<Double> := None): (r: Item)
      ensures r.PrimaryView() == Some(view)
      ensures r.String() == "[" + view.Name() + "(==" + e.Name() + PrioritySuffix(p) + ")]"
    {
      ViewEqual(view, e, p)
    }

    /** Short alias `s(_:)` of `space(_:)`. */
    static function S(space: Option<Double> := None): (r: Item)
      ensures r.PrimaryView() == None
      ensures space.None? ==> r.String() == "-"
      ensures space.Some? ==> r.String() == "-(" + NumStr(space.value) + ")-"
    {
      Spacer(space)
    }

    /** Short alias `s(_:p:)` of `space(_:priority:)`. */
    static function SSized(space: Double, p: Option<Double> := None): (r: Item)
      ensures r.PrimaryView() == None
      ensures r.String() == "-(" + NumStr(space) + PrioritySuffix(p) + ")-"
    {
      SpacerSized(space, p)
    }

    /** `VFLItem.string`: the item's piece of the format string. */
    function String(): (r: string)
      ensures |r| > 0 && r[0] in {'[', '|', '-'}
      ensures SuperViewItem? ==> r == "|"
      ensures SpaceItem? ==> r == space.SpaceString()
    {
      match this
      case ViewItem(view, None) => "[" + view.Name() + "]"
      case ViewItem(view, Some(size)) => "[" + view.Name() + size.String() + "]"
      case SuperViewItem => "|"
      case SpaceItem(space) => space.SpaceString()
    }

    /** `VFLItem.view`: the view the item places, if any. */
    function PrimaryView(): (r: Option<ViewId>)
      ensures r.Some? <==> ViewItem?
      ensures ViewItem? ==> r.value == primary
    {
      match this
      case ViewItem(view, _) => Some(view)
      case _ => None
    }
  }

  /** `"@p"` for a priority, nothing without one. */
  function PrioritySuffix(priority: Option<Double>): (r: string)
    ensures priority.None? <==> r == ""
  {
    if priority.Some? then "@" + NumStr(priority.value) else ""
  }

  /** A bracketed name followed by a parenthesised size, regrouped. */
  lemma SizedBracket(name: string, open: string, a: string, b: string)
    ensures "[" + name + (open + a + b + ")") + "]" == "[" + name + open + a + b + ")]"
  {
    assert ")]" == ")" + "]";
  }

  /** How a view item is written, for every kind of size it may carry. */
  lemma ViewItemRendering(view: ViewId, size: Option<Size>)
    ensures size.None? ==> ViewItem(view, size).String() == "[" + view.Name() + "]"
    ensures size.Some? && size.value.Fixed? && size.value.space.space.None? ==>
      ViewItem(view, size).String() == "[" + view.Name() + "]"
    ensures size.Some? && size.value.Fixed? && size.value.space.space.Some? ==>
      ViewItem(view, size).String() == "[" + view.Name() + "(" + NumStr(size.value.space.space.value)
        + PrioritySuffix(size.value.space.priority) + ")]"
    ensures size.Some? && size.value.Equal? ==>
      ViewItem(view, size).String() == "[" + view.Name() + "(==" + size.value.view.Name()
        + PrioritySuffix(size.value.priority) + ")]"
  {
    if size.Some? {
      var suffix := size.value.String();
      match size.value
      case Fixed(Space(Some(d), p)) =>
        assert suffix == "(" + NumStr(d) + PrioritySuffix(p) + ")";
        SizedBracket(view.Name(), "(", NumStr(d), PrioritySuffix(p));
      case Fixed(Space(None, _)) =>
        assert "[" + view.Name() + suffix + "]" == "[" + view.Name() + "]";
      case Equal(other, p) =>
        assert suffix == "(==" + other.Name() + PrioritySuffix(p) + ")";
        SizedBracket(view.Name(), "(==", other.Name(), PrioritySuffix(p));
    }
  }

  /** `part` occurs in `s` as a run of consecutive characters. */
  predicate Occurs(part: string, s: string) {
    exists j :: 0 <= j <= |s| && part <= s[j..]
  }

  /** What occurs in a text occurs in it behind any prefix. */
  lemma OccursBehind(part: string, prefix: string, s: string)
    requires Occurs(part, s)
    ensures Occurs(part, prefix + s)
  {
    var j :| 0 <= j <= |s| && part <= s[j..];
    assert (prefix + s)[|prefix| + j..] == s[j..];
  }

  /** The strings joined in order with no separator (`joined()`). */
  function Joined(parts: seq<string>): (r: string)
    ensures parts == [] ==> r == ""
    ensures parts != [] ==> |parts[0]| <= |r| && r[..|parts[0]|] == parts[0]
    ensures forall i :: 0 <= i < |parts| ==> Occurs(parts[i], r)
  {
    if parts == [] then ""
    else
      var rest := Joined(parts[1..]);
      assert (parts[0] + rest)[0..] == parts[0] + rest;
      forall i | 1 <= i < |parts|
        ensures Occurs(parts[i], parts[0] + rest)
      {
        assert parts[i] == parts[1..][i - 1];
        OccursBehind(parts[i], parts[0], rest);
      }
      parts[0] + rest
  }

  lemma {:induction false} JoinedAppend(a: seq<string>, b: seq<string>)
    ensures Joined(a + b) == Joined(a) + Joined(b)
  {
    if a != [] {
      assert (a + b)[0] == a[0];
      assert (a + b)[1..] == a[1..] + b;
      JoinedAppend(a[1..], b);
      calc {
        Joined(a + b);
        a[0] + Joined(a[1..] + b);
        a[0] + (Joined(a[1..]) + Joined(b));
        (a[0] + Joined(a[1..])) + Joined(b);
        Joined(a) + Joined(b);
      }
    } else {
      assert a + b == b;
    }
  }

  /** `items.map { $0.string }`. */
  function ItemStrings(items: seq<Item>): (r: seq<string>)
    ensures |r| == |items|
    ensures forall i :: 0 <= i < |items| ==> r[i] == items[i].String()
  {
    seq(|items|, i requires 0 <= i < |items| => items[i].String())
  }

  /** The body of a format string: every item's text, in list order. */
  function ItemsText(items: seq<Item>): (r: string)
    ensures items == [] ==> r == ""
    ensures forall i :: 0 <= i < |items| ==> Occurs(items[i].String(), r)
  {
    Joined(ItemStrings(items))
  }

  /** Joining puts the first part in front of the rest joined. */
  lemma JoinedCons(part: string, parts: seq<string>)
    ensures Joined([part] + parts) == part + Joined(parts)
  {
    assert ([part] + parts)[1..] == parts;
  }

  /** Mapping an item in front of a list maps it in front of the mapped list. */
  lemma ItemStringsCons(it: Item, rest: seq<Item>)
    ensures ItemStrings([it] + rest) == [it.String()] + ItemStrings(rest)
  {
    var items := [it] + rest;
    assert forall i :: 0 < i < |items| ==> items[i] == rest[i - 1];
  }

  /** Mapping distributes over concatenation of item lists. */
  lemma ItemStringsAppend(a: seq<Item>, b: seq<Item>)
    ensures ItemStrings(a + b) == ItemStrings(a) + ItemStrings(b)
  {
    var ab := a + b;
    assert forall i :: 0 <= i < |a| ==> ab[i] == a[i];
    assert forall i :: |a| <= i < |ab| ==> ab[i] == b[i - |a|];
  }

  /** The first item's text, then the rest's. */
  lemma ItemsTextCons(it: Item, rest: seq<Item>)
    ensures ItemsText([it] + rest) == it.String() + ItemsText(rest)
  {
    ItemStringsCons(it, rest);
    JoinedCons(it.String(), ItemStrings(rest));
  }

  /** Rendering distributes over concatenation of item lists. */
  lemma ItemsTextAppend(a: seq<Item>, b: seq<Item>)
    ensures ItemsText(a + b) == ItemsText(a) + ItemsText(b)
  {
    ItemStringsAppend(a, b);
    JoinedAppend(ItemStrings(a), ItemStrings(b));
  }

  predicate Distinct<T(==)>(s: seq<T>) {
    forall i, j :: 0 <= i < j < |s| ==> s[i] != s[j]
  }

  predicate DistinctKeys<K(==), V>(pairs: seq<(K, V)>) {
    forall i, j :: 0 <= i < j < |pairs| ==> pairs[i].0 != pairs[j].0
  }

  /** `items.compactMap { $0.view }`: the placed views, in item order. */
  function PrimaryViews(items: seq<Item>): (r: seq<ViewId>)
    ensures |r| <= |items|
    ensures forall v :: v in r <==> exists i :: 0 <= i < |items| && items[i].PrimaryView() == Some(v)
  {
    if items == [] then []
    else
      var rest := PrimaryViews(items[1..]);
      assert forall i :: 0 < i < |items| ==> items[i] == items[1..][i - 1];
      match items[0].PrimaryView()
      case Some(v) => [v] + rest
      case None => rest
  }

  lemma {:induction false} PrimaryViewsAppend(a: seq<Item>, b: seq<Item>)
    ensures PrimaryViews(a + b) == PrimaryViews(a) + PrimaryViews(b)
  {
    if a != [] {
      assert (a + b)[0] == a[0];
      assert (a + b)[1..] == a[1..] + b;
      PrimaryViewsAppend(a[1..], b);
      match a[0].PrimaryView()
      case Some(v) =>
        calc {
          PrimaryViews(a + b);
          [v] + PrimaryViews(a[1..] + b);
          [v] + (PrimaryViews(a[1..]) + PrimaryViews(b));
          ([v] + PrimaryViews(a[1..])) + PrimaryViews(b);
          PrimaryViews(a) + PrimaryViews(b);
        }
      case None =>
    } else {
      assert a + b == b;
    }
  }

  /** `.map { ("view\($0.hashValue)", $0) }`: each view under its name. */
  function Entries(views: seq<ViewId>): (r: seq<(string, ViewId)>)
    ensures |r| == |views|
    ensures forall i :: 0 <= i < |views| ==> r[i].0 == views[i].Name() && r[i].1 == views[i]
  {
    seq(|views|, i requires 0 <= i < |views| => (views[i].Name(), views[i]))
  }

  /** Keys collide exactly when a view is listed twice. */
  lemma EntriesDistinctKeys(views: seq<ViewId>)
    ensures DistinctKeys(Entries(views)) <==> Distinct(views)
  {
    var e := Entries(views);
    forall i, j | 0 <= i < j < |views|
      ensures e[i].0 != e[j].0 <==> views[i] != views[j]
    {
      NameInjective(views[i], views[j]);
    }
  }

  /**
   * `Dictionary(uniqueKeysWithValues:)`.  Swift stops the program on a
   * repeated key; that is this function's precondition.
   */
  function UniqueKeysWithValues<K(==), V>(pairs: seq<(K, V)>): (m: map<K, V>)
    requires DistinctKeys(pairs)
    ensures |m| == |pairs|
    ensures forall i :: 0 <= i < |pairs| ==> pairs[i].0 in m && m[pairs[i].0] == pairs[i].1
    ensures forall k :: k in m ==> exists i :: 0 <= i < |pairs| && pairs[i].0 == k
  {
    if pairs == [] then map[]
    else
      var rest := UniqueKeysWithValues(pairs[1..]);
      assert forall i :: 0 < i < |pairs| ==> pairs[i] == pairs[1..][i - 1];
      assert pairs[0].0 !in rest;
      rest[pairs[0].0 := pairs[0].1]
  }

  /** What `Dictionary(uniqueKeysWithValues:)` demands of a layout's items. */
  predicate DistinctPrimaryViews(items: seq<Item>): (b: bool)
    ensures b <==> DistinctKeys(Entries(PrimaryViews(items)))
  {
    EntriesDistinctKeys(PrimaryViews(items));
    Distinct(PrimaryViews(items))
  }

  /** The `views` dictionary that goes with the format string. */
  function ViewMap(items: seq<Item>): (m: map<string, ViewId>)
    requires DistinctPrimaryViews(items)
    ensures |m| == |PrimaryViews(items)|
    ensures forall v :: v in PrimaryViews(items) ==> v.Name() in m && m[v.Name()] == v
    ensures forall k :: k in m ==> m[k] in PrimaryViews(items) && m[k].Name() == k
  {
    var views := PrimaryViews(items);
    EntriesDistinctKeys(views);
    var m := UniqueKeysWithValues(Entries(views));
    assert forall v :: v in views ==> exists i :: 0 <= i < |views| && views[i] == v;
    m
  }

  /**
   * An equal-to target is resolvable through the dictionary exactly when it
   * is also placed by some view item of the same layout.
   */
  lemma EqualTargetInViewMap(items: seq<Item>, i: nat)
    requires DistinctPrimaryViews(items)
    requires i < |items| && items[i].ViewItem? && items[i].size.Some? && items[i].size.value.Equal?
    ensures items[i].size.value.view.Name() in ViewMap(items) <==> items[i].size.value.view in PrimaryViews(items)
  {
    var t := items[i].size.value.view;
    var m := ViewMap(items);
    if t.Name() in m {
      NameInjective(m[t.Name()], t);
    }
  }

  /**
   * What `constraints` hands to `NSLayoutConstraint.constraints(withVisualFormat:options:metrics:views:)`
   * (metrics are always `nil`).
   */
  datatype FormatRequest = FormatRequest(format: string, options: FormatOptions, views: map<string, ViewId>)

  /** `VFL`: a direction, the items and the options (the constructor is the private `init`). */
  datatype VFL = VFL(direction: Direction, items: seq<Item>, options: FormatOptions) {

    /** `VFL.v(_:options:)`, options `[]` by default. */
    static function V(items: seq<Item>, options: FormatOptions := {}): (r: VFL)
      ensures r.direction == Vertical && r.items == items && r.options == options
      ensures r.Format() == "V:" + ItemsText(items)
    {
      VFL(Vertical, items, options)
    }

    /** `VFL.h(_:options:)`, options `[]` by default. */
    static function H(items: seq<Item>, options: FormatOptions := {}): (r: VFL)
      ensures r.direction == Horizontal && r.items == items && r.options == options
      ensures r.Format() == "H:" + ItemsText(items)
    {
      VFL(Horizontal, items, options)
    }

    /** `withOptions(_:)`: only the options change, so the format string does not. */
    function WithOptions(options: FormatOptions): (r: VFL)
      ensures r.direction == direction && r.items == items && r.options == options
      ensures r.Format() == Format()
      ensures DistinctPrimaryViews(items) ==>
        r.Constraints() == FormatRequest(Constraints().format, options, Constraints().views)
    {
      VFL(direction, items, options)
    }

    /** The format string built in `constraints`. */
    function Format(): (r: string)
      ensures |r| >= 2 && r[..2] == direction.String()
      ensures items == [] ==> r == direction.String()
      ensures r[2..] == ItemsText(items)
    {
      direction.String() + Joined(ItemStrings(items))
    }

    /** The part of `constraints` before the call into the platform. */
    function Constraints(): (r: FormatRequest)
      requires DistinctPrimaryViews(items)
      ensures r.format == Format() && r.options == options
      ensures forall v :: v in PrimaryViews(items) ==> v.Name() in r.views && r.views[v.Name()] == v
      ensures forall k :: k in r.views ==> r.views[k] in PrimaryViews(items) && r.views[k].Name() == k
    {
      FormatRequest(Format(), options, ViewMap(items))
    }
  }

  /** Items appended to a layout append their text to its format string. */
  lemma FormatAppend(vfl: VFL, more: seq<Item>)
    ensures VFL(vfl.direction, vfl.items + more, vfl.options).Format() == vfl.Format() + ItemsText(more)
  {
    ItemsTextAppend(vfl.items, more);
  }

  /**
   * Where two Swift overloads both accept a call (`view(v, size: d)`,
   * `space(d)`), they build the same item, so the choice between them does
   * not matter.
   */
  lemma OverloadsAgree(view: ViewId, d: Double)
    ensures Item.View(view, Some(d)) == Item.ViewSized(view, d)
    ensures Item.Spacer(Some(d)) == Item.SpacerSized(d)
    ensures Item.V(view, Some(d)) == Item.VSized(view, d)
    ensures Item.S(Some(d)) == Item.SSized(d)
  {
  }

  /** Appending one item appends exactly its text. */
  lemma FormatSnoc(vfl: VFL, it: Item)
    ensures VFL(vfl.direction, vfl.items + [it], vfl.options).Format() == vfl.Format() + it.String()
  {
    FormatAppend(vfl, [it]);
    ItemsTextCons(it, []);
    assert [it] + [] == [it];
  }

  /** Each short alias builds the same item as the long form it stands for. */
  lemma AliasesAgree(view: ViewId, other: ViewId, size: Option<Double>, d: Double, p: Option<Double>)
    ensures Item.V(view, size) == Item.View(view, size)
    ensures Item.VSized(view, d, p) == Item.ViewSized(view, d, p)
    ensures Item.VEqual(view, other, p) == Item.ViewEqual(view, other, p)
    ensures Item.S(size) == Item.Spacer(size)
    ensures Item.SSized(d, p) == Item.SpacerSized(d, p)
  {
  }

  /** `top`, `bottom`, `left` and `right` are the same item as `superView`. */
  lemma EdgesAreSuperView()
    ensures Item.Top() == Item.Bottom() == Item.Left() == Item.Right() == Item.SuperView() == SuperViewItem
  {
  }
}
