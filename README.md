# TinyVFL in Dafny

TinyVFL is a small Swift builder for Auto Layout's Visual Format Language
(VFL). A layout is a direction (vertical or horizontal), an ordered list of
items and a set of format options. An item is one of three things:

- a view, with no size, a fixed length, or a length equal to another view's;
- the super view's edge `|`;
- a space between neighbours, either the standard `-` or a given distance
  with an optional priority.

`constraints` renders the layout as a format string such as
`V:|-[view1][view2(90.0)]-(5.0@750.0)-[view3(==view1)]`. It also builds a
dictionary that maps each placed view's name (`view` followed by its hash
value) to the view. Both go to the platform's constraint factory.

The model is pure, like the source: datatypes for the layout, the items,
sizes and spaces, and functions for every rendering step. Around it are
proved:

- the shape of every piece of text;
- a reader for the grammar the builder writes, with the round trip
  `read(format(layout)) == (direction, canonical items)` for every layout
  whose numbers read back from their text. So two such layouts render
  alike exactly when they agree up to what the text cannot show;
- that view names are injective, so the dictionary holds each placed view
  under its own name exactly when no view is placed twice;
- that options and the short aliases change nothing in the text;
- the two layouts of the sample screen, in both their long and short
  spellings.

Files:

- `wrappers.dfy`: the `Option` type.
- `decimal.dfy`: the decimal text of an `Int` (Swift string interpolation)
  and its inverse.
- `tiny_vfl.dfy`: the builder. This covers `Direction.string`,
  `vflSizeString`, `vflSpaceString`, `Size.string`, `VFLItem.string`,
  `VFLItem.view`, the item constructors and aliases, `v`, `h`,
  `withOptions`, `vflName`, and the format string and view dictionary of
  `constraints`.
- `vfl_reader.dfy`: a reader for format strings, which is the inverse the
  round trip uses.
- `samples.dfy`: the layouts built in `TinyVFL/ViewController.swift`.

Abstractions:

- A `Double` is an abstract type. Its text `NumStr` is an uninterpreted
  function.
- A view is known only by its hash value (`ViewId(hash)`).
- Format options are an opaque set that is passed through unchanged.
- `Dictionary(uniqueKeysWithValues:)` stops the Swift program on a repeated
  key. Here that is the precondition `DistinctPrimaryViews` of `ViewMap`
  and `VFL.Constraints`.

## Model

| member | source | states |
|---|---|---|
| TinyVfl.ViewId.Name | Source/TinyVFL.swift:66-69 | a view's name is `view` followed by decimal text (digits, possibly a leading `-`) that reads back as exactly its hash |
| TinyVfl.NameInjective | Source/TinyVFL.swift:67-68 | two views have the same name exactly when they are the same view |
| Decimal.NatStr | Source/TinyVFL.swift:68 | the decimal text of a natural number is non-empty, all digits, and starts with `0` only for zero |
| Decimal.IntStr | Source/TinyVFL.swift:68 | the text of an `Int` is non-empty, starts with `-` exactly for a negative number, and is digits after that first character |
| Decimal.NatStrRoundTrip | Source/TinyVFL.swift:68 | the decimal text of a natural number reads back as that number |
| Decimal.IntStrRoundTrip | Source/TinyVFL.swift:68 | the interpolated text of an `Int` (with `-` for negatives) reads back as that integer |
| Decimal.IntStrInjective | Source/TinyVFL.swift:68 | distinct integers have distinct decimal texts |
| TinyVfl.Direction.String | Source/TinyVFL.swift:33-40 | the prefix is `V:` exactly for vertical and `H:` exactly for horizontal |
| TinyVfl.Space.Of | Source/TinyVFL.swift:108-110 | the space has the given distance and priority, and renders as `-(d)-` or `-(d@p)-` |
| TinyVfl.Space.OfOptional | Source/TinyVFL.swift:111-113 | the space never has a priority; no distance renders `-`, a distance renders `-(d)-` |
| TinyVfl.Space.SizeString | Source/TinyVFL.swift:114-124 | empty exactly when there is no distance; otherwise bracketed by `(` and `)` |
| TinyVfl.Space.SpaceString | Source/TinyVFL.swift:125-132 | `-` without a distance, `-(d)-` with one, `-(d@p)-` with distance and priority |
| TinyVfl.Size.FixedSize | Source/TinyVFL.swift:88-90 | a fixed size with that length and priority, rendering `(d)` or `(d@p)` |
| TinyVfl.Size.EqualSize | Source/TinyVFL.swift:91-93 | an equal-to size naming that view, rendering `(==name)` or `(==name@p)` |
| TinyVfl.Size.String | Source/TinyVFL.swift:94-103 | empty exactly for a fixed size without distance; a fixed size writes its space's size text; an equal size writes `(==name)` or `(==name@p)` |
| TinyVfl.Item.SuperView | Source/TinyVFL.swift:137-139 | renders the edge bar and places no view |
| TinyVfl.Item.View | Source/TinyVFL.swift:140-149 | places the view; with no length it has no size and renders `[name]`, with a length it renders `[name(d)]` |
| TinyVfl.Item.ViewSized | Source/TinyVFL.swift:150-152 | places the view and renders `[name(d)]` or `[name(d@p)]` |
| TinyVfl.Item.ViewEqual | Source/TinyVFL.swift:153-155 | places the view and renders `[name(==other)]` or `[name(==other@p)]` |
| TinyVfl.Item.Spacer | Source/TinyVFL.swift:156-158 | places no view; renders `-` without a distance, `-(d)-` with one |
| TinyVfl.Item.SpacerSized | Source/TinyVFL.swift:159-161 | places no view; renders `-(d)-` or `-(d@p)-` |
| TinyVfl.Item.Top | Source/TinyVFL.swift:163 | renders the edge bar and places no view |
| TinyVfl.Item.Bottom | Source/TinyVFL.swift:164 | renders the edge bar and places no view |
| TinyVfl.Item.Left | Source/TinyVFL.swift:165 | renders the edge bar and places no view |
| TinyVfl.Item.Right | Source/TinyVFL.swift:166 | renders the edge bar and places no view |
| TinyVfl.EdgesAreSuperView | Source/TinyVFL.swift:163-166 | the four edge names all build the one super-view item |
| TinyVfl.Item.V | Source/TinyVFL.swift:167-169 | same view and text as `view(_:size:)` |
| TinyVfl.Item.VSized | Source/TinyVFL.swift:170-172 | same view and text as `view(_:size:priority:)` |
| TinyVfl.Item.VEqual | Source/TinyVFL.swift:173-175 | same view and text as `view(_:equal:priority:)` |
| TinyVfl.Item.S | Source/TinyVFL.swift:176-178 | same text as `space(_:)`, places no view |
| TinyVfl.Item.SSized | Source/TinyVFL.swift:179-181 | same text as `space(_:priority:)`, places no view |
| TinyVfl.AliasesAgree | Source/TinyVFL.swift:167-181 | each short alias builds the very item of its long form |
| TinyVfl.OverloadsAgree | Source/TinyVFL.swift:140-161 | where two overloads accept the same call they build the same item |
| TinyVfl.Item.String | Source/TinyVFL.swift:183-194 | every item's text is non-empty and starts with an opening bracket, the edge bar or a dash; the super view is the edge bar; a space is its space text |
| TinyVfl.ViewItemRendering | Source/TinyVFL.swift:185-188 | a view item is `[name]` without a size or with an empty fixed size, `[name(d…)]` with a length, `[name(==other…)]` with an equal size |
| TinyVfl.Item.PrimaryView | Source/TinyVFL.swift:195-202 | an item places a view exactly when it is a view item, and that view is its own |
| TinyVfl.ItemStrings | Source/TinyVFL.swift:61 | one text per item, in order, each the item's text |
| TinyVfl.Joined | Source/TinyVFL.swift:61 | no parts join to the empty text; the joined text starts with the first part and contains every part as a run of consecutive characters |
| TinyVfl.JoinedAppend | Source/TinyVFL.swift:61 | joining distributes over concatenation |
| TinyVfl.ItemsText | Source/TinyVFL.swift:61 | no items give the empty text, and every item's text occurs in the items' text |
| TinyVfl.ItemsTextCons | Source/TinyVFL.swift:61 | the items' text is the first item's text followed by the rest's |
| TinyVfl.ItemsTextAppend | Source/TinyVFL.swift:61 | the text of two item lists in a row is their texts in a row |
| TinyVfl.PrimaryViews | Source/TinyVFL.swift:59 | a view is in the list exactly when some item places it; never longer than the items |
| TinyVfl.PrimaryViewsAppend | Source/TinyVFL.swift:59 | the placed views of two lists in a row are their placed views in a row |
| TinyVfl.Entries | Source/TinyVFL.swift:59 | each view paired with its name, in order |
| TinyVfl.DistinctPrimaryViews | Source/TinyVFL.swift:59 | no view is placed twice exactly when the name-view pairs handed to the dictionary have distinct keys, which is what `Dictionary(uniqueKeysWithValues:)` demands |
| TinyVfl.EntriesDistinctKeys | Source/TinyVFL.swift:59 | the keys are distinct exactly when no view is listed twice |
| TinyVfl.UniqueKeysWithValues | Source/TinyVFL.swift:59 | one entry per pair, each key mapped to its value, no key from elsewhere |
| TinyVfl.ViewMap | Source/TinyVFL.swift:59 | one entry per placed view, each under its name, and every entry is a placed view under its own name |
| TinyVfl.EqualTargetInViewMap | Source/TinyVFL.swift:59-62 | the view an equal-to size names is in the dictionary exactly when some item of the layout places it |
| TinyVfl.VFL.V | Source/TinyVFL.swift:45-47 | a vertical layout of those items and options, whose format is `V:` and the items' text |
| TinyVfl.VFL.H | Source/TinyVFL.swift:48-50 | a horizontal layout of those items and options, whose format is `H:` and the items' text |
| TinyVfl.VFL.WithOptions | Source/TinyVFL.swift:51-53 | only the options change; the format string and the dictionary stay the same |
| TinyVfl.VFL.Format | Source/TinyVFL.swift:61 | the direction's prefix, then the items' text; just the prefix for no items |
| TinyVfl.VFL.Constraints | Source/TinyVFL.swift:58-63 | the request carries the format string, the options, and a dictionary holding exactly the placed views under their names |
| TinyVfl.FormatAppend | Source/TinyVFL.swift:61 | appending items appends exactly their text to the format string |
| TinyVfl.FormatSnoc | Source/TinyVFL.swift:61 | appending one item appends exactly its text |
| VflReader.CanonItem | Source/TinyVFL.swift:114-132 | the canonical item renders exactly as the item and places the same view |
| VflReader.CanonKeepsText | Source/TinyVFL.swift:61 | canonical items render the same text as the originals |
| VflReader.NameReadsBack | Source/TinyVFL.swift:67-69 | a view name reads back as its view and contains none of `()[]@=` |
| VflReader.SizeReadsBack | Source/TinyVFL.swift:94-103 | a non-empty size text reads back as that size, leaving what follows |
| VflReader.SpacerReadsBack | Source/TinyVFL.swift:125-132 | a space text reads back as its canonical space |
| VflReader.ItemReadsBack | Source/TinyVFL.swift:183-194 | every item's text reads back as its canonical item, leaving what follows |
| VflReader.ItemsReadBack | Source/TinyVFL.swift:61 | the items' text reads back as the canonical items |
| VflReader.FormatReadsBack | Source/TinyVFL.swift:61 | a layout's format string reads back as its direction and canonical items, when every number the layout holds reads back from its text |
| VflReader.FormatDeterminesLayout | Source/TinyVFL.swift:61 | two layouts whose numbers read back from their text have the same format string exactly when their directions and canonical items agree |
| Samples.VerticalSpellingsAgree | TinyVFL/ViewController.swift:35-51 | the long and the short spelling of the vertical sample build the same items |
| Samples.VerticalSample | TinyVFL/ViewController.swift:35-42 | for any options, the vertical sample renders the `V:` prefix, the edge bar, `-[view1][view2(n)]-(s@h)-[view3(==view1)]`, where each number is shown as its `NumStr` text |
| Samples.HorizontalSpellingsAgree | TinyVFL/ViewController.swift:58-64 | the long and the short spelling of the horizontal sample build the same items |
| Samples.HorizontalViews | TinyVFL/ViewController.swift:58 | the horizontal sample places its three views in order |
| Samples.HorizontalDictionary | TinyVFL/ViewController.swift:58-60 | the horizontal sample passes exactly its three views under their names |
| Samples.HorizontalSample | TinyVFL/ViewController.swift:54-60 | for hashes 1, 2, 3 the builder produces the hand-written `H:` format (edge bar, `[view1][view2][view3]`, edge bar) and its dictionary |
| Samples.UnvalidatedLayout | Source/TinyVFL.swift:45-50 | a layout that starts with a space and places a view twice still renders, and its dictionary precondition fails |

## Left out

- `active()` (Source/TinyVFL.swift:54-56) and the call into `NSLayoutConstraint.constraints(withVisualFormat:options:metrics:views:)` (line 62) belong to the platform. `VFL.Constraints` stops at the `FormatRequest` value that would be passed to it. Metrics are always `nil` there, so they are not a field.
- The code has no structural validation, and the model follows the code. Validation rules are described for this library, but the source checks nothing about spacers at the ends, double spacers, the super view in the middle, or options that suit the direction, and neither does the model. `Samples.UnvalidatedLayout` shows a layout that such rules would reject being rendered.
- The meaning of format options is left out. They are an opaque set, passed through unchanged.
- How Swift prints a `Double` is left out. `NumStr` is uninterpreted, and the samples show the symbolic `NumStr(d)` rather than `90.0`.
- VflReader.FormatReadsBack: holds only for layouts whose numbers all read back (`NumbersReadBack(items)`). Each distance and priority the text shows must read back through an uninterpreted `NumParse` and its text must contain no `@`, `)` or `=`. A NaN never meets this: Swift writes every NaN as `nan`, and a NaN equals no number. So a layout holding a NaN is outside the round trip. The other read-back lemmas and `FormatDeterminesLayout` carry the same condition for the numbers they read.
- `hashValue` is left out. A view is its hash here, so two distinct views with equal hashes are not modelled. Whether the platform accepts `view-…` names for negative hashes is not modelled either.
- Dictionary workings: `Dictionary(uniqueKeysWithValues:)` traps on a repeated key. That trap is the precondition of `UniqueKeysWithValues`, `ViewMap` and `VFL.Constraints`, not a modelled crash.
- Platform selection is left out: the `#if canImport` imports and the `VFLView` alias (Source/TinyVFL.swift:9-15). Views are `ViewId` values.
- Of TinyVFL/ViewController.swift only the two layouts are modelled. View creation, `addSubview`, `translatesAutoresizingMaskIntoConstraints` and the hand-written calls with the `space` metric are not.
- Samples.HorizontalSample: holds for views whose hashes are 1, 2 and 3, since real hashes are not known. `Samples.HorizontalDictionary` states it for any three distinct views.
