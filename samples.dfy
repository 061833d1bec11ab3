/**
 * The two layouts of the sample screen, in long and in short form, with the
 * format strings they produce and the dictionary of views they pass along.
 * Item lists are written as one item in front of the rest, the shape in
 * which their text unfolds.
 */
module Samples {
  import opened Wrappers
  import opened TinyVfl

  /**
   * The vertical sample, long form: super view, standard space, three views
   * (the second 90 high, the third as high as the first) and a prioritised gap.
   */
  function VerticalItems(view1: ViewId, view2: ViewId, view3: ViewId,
                         ninety: Double, spaceValue: Double, high: Double): seq<Item>
  {
    [Item.SuperView()] + ([Item.Spacer()] + ([Item.View(view1)] + ([Item.View(view2, Some(ninety))]
      + ([Item.SpacerSized(spaceValue, Some(high))] + [Item.ViewEqual(view3, view1)]))))
  }

  /** The same layout written with the short aliases. */
  function VerticalItemsShort(view1: ViewId, view2: ViewId, view3: ViewId,
                              ninety: Double, spaceValue: Double, high: Double): seq<Item>
  {
    [Item.Top()] + ([Item.S()] + ([Item.V(view1)] + ([Item.V(view2, Some(ninety))]
      + ([Item.SSized(spaceValue, Some(high))] + [Item.VEqual(view3, view1)]))))
  }

  /** The horizontal sample, long form: three views between the super view's edges. */
  function HorizontalItems(view1: ViewId, view2: ViewId, view3: ViewId): seq<Item> {
    [Item.SuperView()] + ([Item.View(view1)] + ([Item.View(view2)] + ([Item.View(view3)] + [Item.SuperView()])))
  }

  /** The same layout written with the short aliases. */
  function HorizontalItemsShort(view1: ViewId, view2: ViewId, view3: ViewId): seq<Item> {
    [Item.Left()] + ([Item.V(view1)] + ([Item.V(view2)] + ([Item.V(view3)] + [Item.Right()])))
  }

  /** One item renders as its own text. */
  lemma OneItemText(a: Item)
    ensures ItemsText([a]) == a.String()
  {
    ItemsTextCons(a, []);
    assert [a] + [] == [a];
  }

  /** Putting an item in front of a list puts its view, if any, in front of the list's views. */
  lemma ConsViews(it: Item, rest: seq<Item>, views: seq<ViewId>)
    requires PrimaryViews(rest) == views
    ensures it.ViewItem? ==> PrimaryViews([it] + rest) == [it.primary] + views
    ensures !it.ViewItem? ==> PrimaryViews([it] + rest) == views
  {
    assert ([it] + rest)[0] == it;
    assert ([it] + rest)[1..] == rest;
  }

  /** A layout's format string is its direction's prefix followed by its items' text. */
  lemma FormatSplits(vfl: VFL)
    ensures vfl.Format() == vfl.direction.String() + ItemsText(vfl.items)
  {
    var r := vfl.Format();
    assert r == r[..2] + r[2..];
  }

  /** The long and the short spelling of the vertical sample build the same items. */
  lemma VerticalSpellingsAgree(view1: ViewId, view2: ViewId, view3: ViewId,
                               ninety: Double, spaceValue: Double, high: Double)
    ensures VerticalItems(view1, view2, view3, ninety, spaceValue, high)
         == VerticalItemsShort(view1, view2, view3, ninety, spaceValue, high)
  {
    AliasesAgree(view2, view1, Some(ninety), spaceValue, Some(high));
    EdgesAreSuperView();
  }

  /** Six items in a row render as their texts in a row. */
  lemma SixItemsText(i0: Item, i1: Item, i2: Item, i3: Item, i4: Item, i5: Item)
    ensures ItemsText([i0] + ([i1] + ([i2] + ([i3] + ([i4] + [i5])))))
         == i0.String() + (i1.String() + (i2.String() + (i3.String() + (i4.String() + i5.String()))))
  {
    OneItemText(i5);
    ItemsTextCons(i4, [i5]);
    ItemsTextCons(i3, [i4] + [i5]);
    ItemsTextCons(i2, [i3] + ([i4] + [i5]));
    ItemsTextCons(i1, [i2] + ([i3] + ([i4] + [i5])));
    ItemsTextCons(i0, [i1] + ([i2] + ([i3] + ([i4] + [i5]))));
  }

  /** The text of each of the vertical sample's items. */
  lemma VerticalPieces(view1: ViewId, view2: ViewId, view3: ViewId,
                       ninety: Double, spaceValue: Double, high: Double)
    ensures Item.SuperView().String() == "|"
    ensures Item.Spacer().String() == "-"
    ensures Item.View(view1).String() == "[" + view1.Name() + "]"
    ensures Item.View(view2, Some(ninety)).String() == "[" + view2.Name() + "(" + NumStr(ninety) + ")]"
    ensures Item.SpacerSized(spaceValue, Some(high)).String() == "-(" + NumStr(spaceValue) + "@" + NumStr(high) + ")-"
    ensures Item.ViewEqual(view3, view1).String() == "[" + view3.Name() + "(==" + view1.Name() + ")]"
  {
  }

  /** The text of the vertical sample's items. */
  lemma VerticalText(view1: ViewId, view2: ViewId, view3: ViewId,
                     ninety: Double, spaceValue: Double, high: Double)
    ensures ItemsText(VerticalItems(view1, view2, view3, ninety, spaceValue, high))
         == "|" + ("-" + (("[" + view1.Name() + "]")
            + (("[" + view2.Name() + "(" + NumStr(ninety) + ")]")
            + (("-(" + NumStr(spaceValue) + "@" + NumStr(high) + ")-")
            + ("[" + view3.Name() + "(==" + view1.Name() + ")]")))))
  {
    VerticalPieces(view1, view2, view3, ninety, spaceValue, high);
    SixItemsText(Item.SuperView(), Item.Spacer(), Item.View(view1), Item.View(view2, Some(ninety)),
                 Item.SpacerSized(spaceValue, Some(high)), Item.ViewEqual(view3, view1));
  }

  /** The vertical sample's format string, item by item; options leave it unchanged. */
  lemma VerticalSample(view1: ViewId, view2: ViewId, view3: ViewId,
                       ninety: Double, spaceValue: Double, high: Double, options: FormatOptions)
    ensures VFL.V(VerticalItems(view1, view2, view3, ninety, spaceValue, high)).WithOptions(options).Format()
         == "V:" + ("|" + ("-" + (("[" + view1.Name() + "]")
            + (("[" + view2.Name() + "(" + NumStr(ninety) + ")]")
            + (("-(" + NumStr(spaceValue) + "@" + NumStr(high) + ")-")
            + ("[" + view3.Name() + "(==" + view1.Name() + ")]"))))))
  {
    var vfl := VFL.V(VerticalItems(view1, view2, view3, ninety, spaceValue, high)).WithOptions(options);
    FormatSplits(vfl);
    VerticalText(view1, view2, view3, ninety, spaceValue, high);
  }

  /** The long and the short spelling of the horizontal sample build the same items. */
  lemma HorizontalSpellingsAgree(view1: ViewId, view2: ViewId, view3: ViewId)
    ensures HorizontalItems(view1, view2, view3) == HorizontalItemsShort(view1, view2, view3)
  {
    EdgesAreSuperView();
  }

  /** The text of the horizontal sample's items. */
  lemma HorizontalText(view1: ViewId, view2: ViewId, view3: ViewId)
    ensures ItemsText(HorizontalItems(view1, view2, view3))
         == "|" + (("[" + view1.Name() + "]") + (("[" + view2.Name() + "]") + (("[" + view3.Name() + "]") + "|")))
  {
    var i0, i1, i2, i3 := Item.SuperView(), Item.View(view1), Item.View(view2), Item.View(view3);
    OneItemText(i0);
    ItemsTextCons(i3, [i0]);
    ItemsTextCons(i2, [i3] + [i0]);
    ItemsTextCons(i1, [i2] + ([i3] + [i0]));
    ItemsTextCons(i0, [i1] + ([i2] + ([i3] + [i0])));
  }

  /** The views a list of five items places, when the second to fourth are view items and the others are not. */
  lemma FiveItemsViews(i0: Item, i1: Item, i2: Item, i3: Item, i4: Item)
    requires !i0.ViewItem? && i1.ViewItem? && i2.ViewItem? && i3.ViewItem? && !i4.ViewItem?
    ensures PrimaryViews([i0] + ([i1] + ([i2] + ([i3] + [i4])))) == [i1.primary, i2.primary, i3.primary]
  {
    assert PrimaryViews([]) == [];
    ConsViews(i4, [], []);
    assert [i4] + [] == [i4];
    ConsViews(i3, [i4], []);
    ConsViews(i2, [i3] + [i4], [i3.primary]);
    ConsViews(i1, [i2] + ([i3] + [i4]), [i2.primary] + [i3.primary]);
    ConsViews(i0, [i1] + ([i2] + ([i3] + [i4])), [i1.primary] + ([i2.primary] + [i3.primary]));
  }

  /** The views of the horizontal sample, in order. */
  lemma HorizontalViews(view1: ViewId, view2: ViewId, view3: ViewId)
    ensures PrimaryViews(HorizontalItems(view1, view2, view3)) == [view1, view2, view3]
  {
    FiveItemsViews(Item.SuperView(), Item.View(view1), Item.View(view2), Item.View(view3), Item.SuperView());
  }

  /** The names of the views whose hashes are 1, 2 and 3. */
  lemma SmallNames()
    ensures ViewId(1).Name() == "view1" && ViewId(2).Name() == "view2" && ViewId(3).Name() == "view3"
  {
  }

  /** The horizontal sample's format string. */
  lemma HorizontalFormat(view1: ViewId, view2: ViewId, view3: ViewId, options: FormatOptions)
    ensures VFL.H(HorizontalItems(view1, view2, view3)).WithOptions(options).Format()
         == "H:" + ("|" + (("[" + view1.Name() + "]") + (("[" + view2.Name() + "]") + (("[" + view3.Name() + "]") + "|"))))
  {
    var vfl := VFL.H(HorizontalItems(view1, view2, view3)).WithOptions(options);
    FormatSplits(vfl);
    HorizontalText(view1, view2, view3);
  }

  /** A map that holds three distinct keys and nothing else is that map's display. */
  lemma MapOfThree(m: map<string, ViewId>, k1: string, k2: string, k3: string, v1: ViewId, v2: ViewId, v3: ViewId)
    requires k1 != k2 && k1 != k3 && k2 != k3
    requires k1 in m && k2 in m && k3 in m && m[k1] == v1 && m[k2] == v2 && m[k3] == v3
    requires forall k :: k in m ==> k == k1 || k == k2 || k == k3
    ensures m == map[k1 := v1, k2 := v2, k3 := v3]
  {
    assert m.Keys == {k1, k2, k3};
  }

  /** The dictionary of a layout that places three views finds each of them under its name. */
  lemma ThreeViewsFound(items: seq<Item>, view1: ViewId, view2: ViewId, view3: ViewId)
    requires PrimaryViews(items) == [view1, view2, view3]
    requires DistinctPrimaryViews(items)
    ensures view1.Name() in ViewMap(items) && ViewMap(items)[view1.Name()] == view1
    ensures view2.Name() in ViewMap(items) && ViewMap(items)[view2.Name()] == view2
    ensures view3.Name() in ViewMap(items) && ViewMap(items)[view3.Name()] == view3
  {
    var views := [view1, view2, view3];
    assert views[0] in views && views[1] in views && views[2] in views;
  }

  /** The dictionary of a layout that places three views holds no other name. */
  lemma ThreeViewsOnly(items: seq<Item>, view1: ViewId, view2: ViewId, view3: ViewId)
    requires PrimaryViews(items) == [view1, view2, view3]
    requires DistinctPrimaryViews(items)
    ensures forall k :: k in ViewMap(items) ==> k == view1.Name() || k == view2.Name() || k == view3.Name()
  {
  }

  /** Distinct views have distinct names. */
  lemma DistinctNames(view1: ViewId, view2: ViewId, view3: ViewId)
    requires view1 != view2 && view1 != view3 && view2 != view3
    ensures view1.Name() != view2.Name() && view1.Name() != view3.Name() && view2.Name() != view3.Name()
  {
    NameInjective(view1, view2);
    NameInjective(view1, view3);
    NameInjective(view2, view3);
  }

  /** A layout that places three distinct views passes exactly those three, under their names. */
  lemma ThreeViewsMap(items: seq<Item>, view1: ViewId, view2: ViewId, view3: ViewId)
    requires PrimaryViews(items) == [view1, view2, view3]
    requires view1 != view2 && view1 != view3 && view2 != view3
    ensures DistinctPrimaryViews(items)
    ensures ViewMap(items) == map[view1.Name() := view1, view2.Name() := view2, view3.Name() := view3]
  {
    assert Distinct([view1, view2, view3]);
    DistinctNames(view1, view2, view3);
    ThreeViewsFound(items, view1, view2, view3);
    ThreeViewsOnly(items, view1, view2, view3);
    MapOfThree(ViewMap(items), view1.Name(), view2.Name(), view3.Name(), view1, view2, view3);
  }

  /** The dictionary the horizontal sample passes: each of its three views under its name. */
  lemma HorizontalDictionary(view1: ViewId, view2: ViewId, view3: ViewId, options: FormatOptions)
    requires view1 != view2 && view1 != view3 && view2 != view3
    ensures DistinctPrimaryViews(HorizontalItems(view1, view2, view3))
    ensures VFL.H(HorizontalItems(view1, view2, view3)).WithOptions(options).Constraints().views
         == map[view1.Name() := view1, view2.Name() := view2, view3.Name() := view3]
  {
    HorizontalViews(view1, view2, view3);
    ThreeViewsMap(HorizontalItems(view1, view2, view3), view1, view2, view3);
  }

  /** The sample's literal strings, given the views' names. */
  lemma HorizontalLiterals(view1: ViewId, view2: ViewId, view3: ViewId)
    requires view1.Name() == "view1" && view2.Name() == "view2" && view3.Name() == "view3"
    ensures "H:" + ("|" + (("[" + view1.Name() + "]") + (("[" + view2.Name() + "]") + (("[" + view3.Name() + "]") + "|"))))
         == "H:|[view1][view2][view3]|"
    ensures map[view1.Name() := view1, view2.Name() := view2, view3.Name() := view3]
         == map["view1" := view1, "view2" := view2, "view3" := view3]
  {
  }

  /**
   * The horizontal sample, for views whose hashes are 1, 2 and 3: the text
   * the sample writes by hand, and the dictionary it passes with it.
   */
  lemma HorizontalSample(options: FormatOptions)
    ensures DistinctPrimaryViews(HorizontalItems(ViewId(1), ViewId(2), ViewId(3)))
    ensures VFL.H(HorizontalItems(ViewId(1), ViewId(2), ViewId(3))).WithOptions(options).Constraints()
         == FormatRequest("H:|[view1][view2][view3]|", options,
                          map["view1" := ViewId(1), "view2" := ViewId(2), "view3" := ViewId(3)])
  {
    SmallNames();
    HorizontalLiterals(ViewId(1), ViewId(2), ViewId(3));
    HorizontalFormat(ViewId(1), ViewId(2), ViewId(3), options);
    HorizontalDictionary(ViewId(1), ViewId(2), ViewId(3), options);
  }

  /**
   * The builder checks nothing about item order: a layout that starts with
   * a spacer and places a view twice in a horizontal row still renders.
   */
  lemma UnvalidatedLayout(view: ViewId)
    ensures VFL.H([Item.Spacer()] + ([Item.View(view)] + [Item.View(view)])).Format()
         == "H:" + ("-" + (("[" + view.Name() + "]") + ("[" + view.Name() + "]")))
    ensures !DistinctPrimaryViews([Item.Spacer()] + ([Item.View(view)] + [Item.View(view)]))
  {
    var i0, i1 := Item.Spacer(), Item.View(view);
    OneItemText(i1);
    ItemsTextCons(i1, [i1]);
    ItemsTextCons(i0, [i1] + [i1]);
    RepeatedViews(i0, i1);
    var views := PrimaryViews([i0] + ([i1] + [i1]));
    assert views[0] == views[1];
  }

  /** The views placed by a spacer and the same view twice. */
  lemma RepeatedViews(i0: Item, i1: Item)
    requires !i0.ViewItem? && i1.ViewItem?
    ensures PrimaryViews([i0] + ([i1] + [i1])) == [i1.primary, i1.primary]
  {
    assert PrimaryViews([]) == [];
    ConsViews(i1, [], []);
    assert [i1] + [] == [i1];
    ConsViews(i1, [i1], [i1.primary]);
    ConsViews(i0, [i1] + [i1], [i1.primary] + [i1.primary]);
  }
}
