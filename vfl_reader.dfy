/**
 * A reader for the format strings the builder writes, following the grammar
 *
 *   layout     := ("V:" | "H:") item*
 *   item       := "|" | "[" name size? "]" | "-" | "-(" number ("@" number)? ")-"
 *   size       := "(" number ("@" number)? ")" | "(==" name ("@" number)? ")"
 *
 * It is the inverse of `VFL.Format`: reading a rendered layout gives back
 * its direction and items up to the two things the text cannot show (see
 * `CanonItem`).  From that, two layouts have the same format string exactly
 * when they agree on direction and on their canonical items.
 */
module VflReader {
  import opened Wrappers
  import Decimal
  import opened TinyVfl

  /** Reading a `Double` back from its text (`Double(_:)`); left uninterpreted. */
  const NumParse: string -> Option<Double>

  /** The characters that end a number in the grammar never occur inside one. */
  predicate Plain(s: string) {
    forall k :: 0 <= k < |s| ==> s[k] != '@' && s[k] != ')' && s[k] != '='
  }

  /**
   * What the reader needs of the text of one number: reading it gives the
   * number back, and it contains no `@`, `)` or `=`.  Swift's rendering of
   * finite numbers and infinities (digits, `.`, `e`, signs, `inf`) meets
   * both; a NaN does not, since every NaN is written `nan` and a NaN equals
   * no number, itself included.
   */
  predicate ReadsBack(x: Double) {
    NumParse(NumStr(x)) == Some(x) && Plain(NumStr(x))
  }

  predicate PriorityReadsBack(p: Option<Double>) {
    p.Some? ==> ReadsBack(p.value)
  }

  /** The numbers a space writes: a distance, and with it the priority. */
  predicate SpaceReadsBack(sp: Space) {
    sp.space.Some? ==> ReadsBack(sp.space.value) && PriorityReadsBack(sp.priority)
  }

  predicate SizeReadsBackNumbers(sz: Size) {
    match sz
    case Fixed(sp) => SpaceReadsBack(sp)
    case Equal(_, p) => PriorityReadsBack(p)
  }

  predicate ItemReadsBackNumbers(it: Item) {
    match it
    case SuperViewItem => true
    case SpaceItem(sp) => SpaceReadsBack(sp)
    case ViewItem(_, size) => size.Some? ==> SizeReadsBackNumbers(size.value)
  }

  /** Every number a list of items writes reads back from its text. */
  predicate NumbersReadBack(items: seq<Item>) {
    forall i :: 0 <= i < |items| ==> ItemReadsBackNumbers(items[i])
  }

  /** A spacer without a distance is `-` whatever its priority. */
  function CanonSpace(sp: Space): (r: Space)
    ensures r.SpaceString() == sp.SpaceString()
    ensures r.space == sp.space
    ensures r.space.None? ==> r.priority.None?
  {
    if sp.space.None? then Space(None, None) else sp
  }

  /**
   * The item the text of `it` determines: a fixed size without a distance
   * is written as no size at all, and a spacer without a distance loses
   * its priority.
   */
  function CanonItem(it: Item): (r: Item)
    ensures r.String() == it.String()
    ensures r.PrimaryView() == it.PrimaryView()
  {
    match it
    case ViewItem(v, Some(Fixed(Space(None, _)))) =>
      ViewItemRendering(v, it.size);
      ViewItemRendering(v, None);
      ViewItem(v, None)
    case SpaceItem(sp) => SpaceItem(CanonSpace(sp))
    case _ => it
  }

  function Canon(items: seq<Item>): (r: seq<Item>)
    ensures |r| == |items|
    ensures forall i :: 0 <= i < |items| ==> r[i] == CanonItem(items[i])
  {
    seq(|items|, i requires 0 <= i < |items| => CanonItem(items[i]))
  }

  /** Normalising the items leaves the format string as it was. */
  lemma CanonKeepsText(items: seq<Item>)
    ensures ItemsText(Canon(items)) == ItemsText(items)
  {
    assert ItemStrings(Canon(items)) == ItemStrings(items);
  }

  datatype Parsed<T> = Parsed(value: T, rest: string)

  /** Splits `s` before the first character in `stops`. */
  function TakeUntil(s: string, stops: set<char>): (r: (string, string))
    ensures r.0 + r.1 == s
    ensures forall k :: 0 <= k < |r.0| ==> r.0[k] !in stops
    ensures r.1 == [] || r.1[0] in stops
  {
    if s == [] then ("", "")
    else if s[0] in stops then ("", s)
    else
      var tail := TakeUntil(s[1..], stops);
      var token := [s[0]] + tail.0;
      assert forall k :: 1 <= k < |token| ==> token[k] == tail.0[k - 1];
      assert token + tail.1 == [s[0]] + (tail.0 + tail.1);
      (token, tail.1)
  }

  lemma {:induction false} TakeUntilSplits(token: string, rest: string, stops: set<char>)
    requires forall k :: 0 <= k < |token| ==> token[k] !in stops
    requires rest == [] || rest[0] in stops
    ensures TakeUntil(token + rest, stops) == (token, rest)
  {
    if token == [] {
      assert token + rest == rest;
    } else {
      var s := token + rest;
      assert s[0] == token[0];
      assert s[1..] == token[1..] + rest;
      TakeUntilSplits(token[1..], rest, stops);
      assert [token[0]] + token[1..] == token;
    }
  }

  /** `view` followed by the decimal text of a hash. */
  function ReadName(token: string): (r: Option<ViewId>)
    ensures r.Some? ==> |token| > 4 && token[..4] == "view"
  {
    if |token| >= 4 && token[..4] == "view" then
      match Decimal.ParseInt(token[4..])
      case Some(h) => Some(ViewId(h))
      case None => None
    else None
  }

  lemma NameReadsBack(v: ViewId)
    ensures ReadName(v.Name()) == Some(v)
    ensures forall k :: 0 <= k < |v.Name()| ==> v.Name()[k] !in {'(', ')', '[', ']', '@', '='}
  {
    var name := v.Name();
    assert name[4..] == Decimal.IntStr(v.hash);
    Decimal.IntStrRoundTrip(v.hash);
    forall k | 0 <= k < 4
      ensures name[k] in {'v', 'i', 'e', 'w'}
    {
      assert name[k] == name[..4][k];
    }
  }

  /** `")"` or `"@" number ")"`: the optional priority and the closing bracket. */
  function ReadPriorityClose(s: string): (r: Option<Parsed<Option<Double>>>)
    ensures r.Some? ==> |r.value.rest| < |s|
  {
    if |s| > 0 && s[0] == ')' then Some(Parsed(None, s[1..]))
    else if |s| > 0 && s[0] == '@' then
      var (token, after) := TakeUntil(s[1..], {')'});
      if after == [] then None
      else
        match NumParse(token)
        case Some(p) => Some(Parsed(Some(p), after[1..]))
        case None => None
    else None
  }

  lemma PriorityCloseReadsBack(p: Option<Double>, rest: string)
    requires PriorityReadsBack(p)
    ensures ReadPriorityClose(PrioritySuffix(p) + ")" + rest) == Some(Parsed(p, rest))
  {
    var s := PrioritySuffix(p) + ")" + rest;
    if p.Some? {
      var q := p.value;
      assert s[0] == '@';
      assert s[1..] == NumStr(q) + (")" + rest);
      TakeUntilSplits(NumStr(q), ")" + rest, {')'});
    } else {
      assert s == ")" + rest;
    }
  }

  /** `number ("@" number)? ")"`: a length with its optional priority. */
  function ReadLength(s: string): (r: Option<Parsed<Space>>)
    ensures r.Some? ==> |r.value.rest| < |s| && r.value.value.space.Some?
  {
    var (token, after) := TakeUntil(s, {'@', ')'});
    match NumParse(token)
    case None => None
    case Some(d) =>
      match ReadPriorityClose(after)
      case None => None
      case Some(Parsed(p, rest)) => Some(Parsed(Space(Some(d), p), rest))
  }

  lemma LengthReadsBack(d: Double, p: Option<Double>, rest: string)
    requires ReadsBack(d) && PriorityReadsBack(p)
    ensures ReadLength(NumStr(d) + PrioritySuffix(p) + ")" + rest) == Some(Parsed(Space(Some(d), p), rest))
  {
    var after := PrioritySuffix(p) + ")" + rest;
    assert after[0] in {'@', ')'};
    assert NumStr(d) + PrioritySuffix(p) + ")" + rest == NumStr(d) + after;
    TakeUntilSplits(NumStr(d), after, {'@', ')'});
    PriorityCloseReadsBack(p, rest);
  }

  /** The size suffix of a view, after its opening `(`. */
  function ReadSize(s: string): (r: Option<Parsed<Size>>)
    ensures r.Some? ==> |r.value.rest| < |s|
  {
    if |s| >= 2 && s[0] == '=' && s[1] == '=' then
      var (token, after) := TakeUntil(s[2..], {'@', ')'});
      match ReadName(token)
      case None => None
      case Some(v) =>
        match ReadPriorityClose(after)
        case None => None
        case Some(Parsed(p, rest)) => Some(Parsed(Equal(v, p), rest))
    else
      match ReadLength(s)
      case None => None
      case Some(Parsed(sp, rest)) => Some(Parsed(Fixed(sp), rest))
  }

  /** The two written forms of a size suffix. */
  lemma SizeText(sz: Size)
    ensures sz.Fixed? && sz.space.space.Some? ==>
      sz.String() == "(" + (NumStr(sz.space.space.value) + PrioritySuffix(sz.space.priority) + ")")
    ensures sz.Equal? ==> sz.String() == "(" + ("==" + sz.view.Name() + PrioritySuffix(sz.priority) + ")")
  {
    if sz.Equal? {
      EqualBracket(sz.view.Name(), sz.priority);
    }
  }

  /** The bracketed text of an equal-to size, regrouped after its `(`. */
  lemma EqualBracket(name: string, p: Option<Double>)
    ensures p.None? ==> "(==" + name + ")" == "(" + ("==" + name + PrioritySuffix(p) + ")")
    ensures p.Some? ==> "(==" + name + "@" + NumStr(p.value) + ")" == "(" + ("==" + name + PrioritySuffix(p) + ")")
  {
  }

  /** Dropping an opening bracket. */
  lemma AfterOpen(body: string, rest: string)
    ensures ("(" + body)[1..] + rest == body + rest
  {
    assert ("(" + body)[1..] == body;
  }

  lemma ReadSizeFixedStep(s: string, sp: Space, rest: string)
    requires !(|s| >= 2 && s[0] == '=' && s[1] == '=')
    requires ReadLength(s) == Some(Parsed(sp, rest))
    ensures ReadSize(s) == Some(Parsed(Fixed(sp), rest))
  {
  }

  lemma ReadSizeEqualStep(s: string, name: string, after: string, v: ViewId, p: Option<Double>, rest: string)
    requires |s| >= 2 && s[0] == '=' && s[1] == '='
    requires TakeUntil(s[2..], {'@', ')'}) == (name, after)
    requires ReadName(name) == Some(v)
    requires ReadPriorityClose(after) == Some(Parsed(p, rest))
    ensures ReadSize(s) == Some(Parsed(Equal(v, p), rest))
  {
  }

  lemma FixedSizeReadsBack(d: Double, p: Option<Double>, rest: string)
    requires ReadsBack(d) && PriorityReadsBack(p)
    ensures ReadSize(NumStr(d) + PrioritySuffix(p) + ")" + rest) == Some(Parsed(Fixed(Space(Some(d), p)), rest))
  {
    var s := NumStr(d) + PrioritySuffix(p) + ")" + rest;
    assert Plain(NumStr(d));
    assert s[0] != '=' by {
      if |NumStr(d)| == 0 {
        assert s == PrioritySuffix(p) + ")" + rest;
      } else {
        assert s[0] == NumStr(d)[0];
      }
    }
    LengthReadsBack(d, p, rest);
    ReadSizeFixedStep(s, Space(Some(d), p), rest);
  }

  lemma EqualSizeText(name: string, p: Option<Double>, rest: string)
    ensures var s := "==" + name + PrioritySuffix(p) + ")" + rest;
      s[0] == '=' && s[1] == '=' && s[2..] == name + (PrioritySuffix(p) + ")" + rest)
  {
    var s := "==" + name + PrioritySuffix(p) + ")" + rest;
    assert s == "==" + (name + (PrioritySuffix(p) + ")" + rest));
  }

  lemma EqualSizeReadsBack(v: ViewId, p: Option<Double>, rest: string)
    requires PriorityReadsBack(p)
    ensures ReadSize("==" + v.Name() + PrioritySuffix(p) + ")" + rest) == Some(Parsed(Equal(v, p), rest))
  {
    NameReadsBack(v);
    var name := v.Name();
    var after := PrioritySuffix(p) + ")" + rest;
    EqualSizeText(name, p, rest);
    assert after[0] in {'@', ')'};
    TakeUntilSplits(name, after, {'@', ')'});
    PriorityCloseReadsBack(p, rest);
    ReadSizeEqualStep("==" + name + PrioritySuffix(p) + ")" + rest, name, after, v, p, rest);
  }

  /** A size suffix (without its opening bracket) reads back as the size. */
  lemma SizeReadsBack(sz: Size, rest: string)
    requires SizeReadsBackNumbers(sz)
    requires sz.String() != ""
    ensures ReadSize(sz.String()[1..] + rest) == Some(Parsed(sz, rest))
  {
    SizeText(sz);
    if sz.Fixed? {
      var d, p := sz.space.space.value, sz.space.priority;
      AfterOpen(NumStr(d) + PrioritySuffix(p) + ")", rest);
      FixedSizeReadsBack(d, p, rest);
    } else {
      var v, p := sz.view, sz.priority;
      AfterOpen("==" + v.Name() + PrioritySuffix(p) + ")", rest);
      EqualSizeReadsBack(v, p, rest);
    }
  }

  /** A spacer, after its first `-`: either nothing more, or `(` length `)-`. */
  function ReadSpacer(s: string): (r: Option<Parsed<Space>>)
    ensures r.Some? ==> |r.value.rest| <= |s|
  {
    if |s| > 0 && s[0] == '(' then
      match ReadLength(s[1..])
      case None => None
      case Some(Parsed(sp, rest)) =>
        if rest != [] && rest[0] == '-' then Some(Parsed(sp, rest[1..])) else None
    else Some(Parsed(Space(None, None), s))
  }

  /** A view item, after its `[`: a name, an optional size and `]`. */
  function ReadView(s: string): (r: Option<Parsed<Item>>)
    ensures r.Some? ==> |r.value.rest| < |s|
  {
    var (token, after) := TakeUntil(s, {'(', ']'});
    match ReadName(token)
    case None => None
    case Some(v) =>
      if after == [] then None
      else if after[0] == ']' then Some(Parsed(ViewItem(v, None), after[1..]))
      else
        match ReadSize(after[1..])
        case None => None
        case Some(Parsed(sz, rest)) =>
          if rest != [] && rest[0] == ']' then Some(Parsed(ViewItem(v, Some(sz)), rest[1..])) else None
  }

  /** One item, and what follows it. */
  function ReadItem(s: string): (r: Option<Parsed<Item>>)
    ensures r.Some? ==> |r.value.rest| < |s|
  {
    if s == [] then None
    else if s[0] == '|' then Some(Parsed(SuperViewItem, s[1..]))
    else if s[0] == '-' then
      match ReadSpacer(s[1..])
      case None => None
      case Some(Parsed(sp, rest)) => Some(Parsed(SpaceItem(sp), rest))
    else if s[0] == '[' then ReadView(s[1..])
    else None
  }

  /** What may follow an item in a format string: nothing, or the next item. */
  predicate ItemBoundary(rest: string) {
    rest == [] || rest[0] in {'[', '|', '-'}
  }

  lemma ReadSpacerBareStep(s: string)
    requires !(|s| > 0 && s[0] == '(')
    ensures ReadSpacer(s) == Some(Parsed(Space(None, None), s))
  {
  }

  lemma ReadSpacerLengthStep(s: string, sp: Space, rest: string)
    requires |s| > 0 && s[0] == '('
    requires ReadLength(s[1..]) == Some(Parsed(sp, "-" + rest))
    ensures ReadSpacer(s) == Some(Parsed(sp, rest))
  {
    assert ("-" + rest)[1..] == rest;
  }

  /** Reading past the first character of a text followed by more. */
  lemma AfterHead(t: string, rest: string)
    requires t != []
    ensures (t + rest) != [] && (t + rest)[0] == t[0] && (t + rest)[1..] == t[1..] + rest
  {
  }

  /** A spacer with a distance is `-(`, its length and priority, `)-`. */
  lemma SpaceStringShape(sp: Space)
    requires sp.space.Some?
    ensures sp.SpaceString() == "-" + ("(" + ((NumStr(sp.space.value) + PrioritySuffix(sp.priority) + ")") + "-"))
  {
  }

  /** The text after a spacer's first `-`, in the shape `ReadSpacer` takes apart. */
  lemma SpacerText(body: string, rest: string)
    ensures var s := ("-" + ("(" + (body + "-")))[1..] + rest;
      |s| > 0 && s[0] == '(' && s[1..] == body + ("-" + rest)
  {
    var t := "-" + ("(" + (body + "-"));
    assert t[1..] == "(" + (body + "-");
    assert t[1..] + rest == "(" + (body + ("-" + rest));
  }

  lemma SpacerReadsBack(sp: Space, rest: string)
    requires SpaceReadsBack(sp)
    requires ItemBoundary(rest)
    ensures ReadSpacer(sp.SpaceString()[1..] + rest) == Some(Parsed(CanonSpace(sp), rest))
  {
    var s := sp.SpaceString()[1..] + rest;
    if sp.space.None? {
      assert s == rest;
      ReadSpacerBareStep(s);
    } else {
      SpaceStringShape(sp);
      SpacerText(NumStr(sp.space.value) + PrioritySuffix(sp.priority) + ")", rest);
      LengthReadsBack(sp.space.value, sp.priority, "-" + rest);
      ReadSpacerLengthStep(s, sp, rest);
    }
  }

  /** One step of `ReadItem`: a `-` starts a spacer. */
  lemma ReadItemSpacerStep(s: string, sp: Space, rest: string)
    requires s != [] && s[0] == '-'
    requires ReadSpacer(s[1..]) == Some(Parsed(sp, rest))
    ensures ReadItem(s) == Some(Parsed(SpaceItem(sp), rest))
  {
  }

  /** One step of `ReadItem`: a `[` starts a view item. */
  lemma ReadItemViewStep(s: string)
    requires s != [] && s[0] == '['
    ensures ReadItem(s) == ReadView(s[1..])
  {
  }

  lemma SpaceItemReadsBack(sp: Space, rest: string)
    requires SpaceReadsBack(sp)
    requires ItemBoundary(rest)
    ensures ReadItem(sp.SpaceString() + rest) == Some(Parsed(SpaceItem(CanonSpace(sp)), rest))
  {
    var t := sp.SpaceString();
    AfterHead(t, rest);
    SpacerReadsBack(sp, rest);
    ReadItemSpacerStep(t + rest, CanonSpace(sp), rest);
  }

  lemma ReadViewBareStep(s: string, name: string, v: ViewId, rest: string)
    requires TakeUntil(s, {'(', ']'}) == (name, "]" + rest)
    requires ReadName(name) == Some(v)
    ensures ReadView(s) == Some(Parsed(ViewItem(v, None), rest))
  {
    assert ("]" + rest)[1..] == rest;
  }

  lemma ReadViewSizedStep(s: string, name: string, after: string, v: ViewId, sz: Size, rest: string)
    requires TakeUntil(s, {'(', ']'}) == (name, after)
    requires ReadName(name) == Some(v)
    requires after != [] && after[0] == '('
    requires ReadSize(after[1..]) == Some(Parsed(sz, "]" + rest))
    ensures ReadView(s) == Some(Parsed(ViewItem(v, Some(sz)), rest))
  {
    assert ("]" + rest)[1..] == rest;
  }

  lemma BareViewReadsBack(v: ViewId, rest: string)
    ensures ReadView(v.Name() + "]" + rest) == Some(Parsed(ViewItem(v, None), rest))
  {
    NameReadsBack(v);
    TakeUntilSplits(v.Name(), "]" + rest, {'(', ']'});
    assert v.Name() + "]" + rest == v.Name() + ("]" + rest);
    ReadViewBareStep(v.Name() + "]" + rest, v.Name(), v, rest);
  }

  lemma SizedViewText(name: string, suffix: string, rest: string)
    requires suffix != ""
    ensures var after := suffix + "]" + rest;
      name + suffix + "]" + rest == name + after && after[0] == suffix[0] && after[1..] == suffix[1..] + ("]" + rest)
  {
    assert name + suffix + "]" + rest == name + (suffix + "]" + rest);
    assert (suffix + "]" + rest)[1..] == suffix[1..] + ("]" + rest);
  }

  lemma SizedViewReadsBack(v: ViewId, sz: Size, rest: string)
    requires SizeReadsBackNumbers(sz)
    requires sz.String() != ""
    ensures ReadView(v.Name() + sz.String() + "]" + rest) == Some(Parsed(ViewItem(v, Some(sz)), rest))
  {
    NameReadsBack(v);
    SizeText(sz);
    var suffix := sz.String();
    var after := suffix + "]" + rest;
    SizedViewText(v.Name(), suffix, rest);
    TakeUntilSplits(v.Name(), after, {'(', ']'});
    SizeReadsBack(sz, "]" + rest);
    ReadViewSizedStep(v.Name() + after, v.Name(), after, v, sz, rest);
  }

  /** What a view item writes between its name and its `]`. */
  function SizeSuffix(size: Option<Size>): (r: string)
    ensures size.None? ==> r == ""
  {
    if size.None? then "" else size.value.String()
  }

  /** A view item is `[`, its name, its size's text and `]`. */
  lemma ViewItemShape(v: ViewId, size: Option<Size>)
    ensures ViewItem(v, size).String() == "[" + (v.Name() + SizeSuffix(size) + "]")
  {
  }

  /** The text of a view item after its `[`, as `ReadView` takes it apart. */
  lemma ViewBodyReadsBack(v: ViewId, size: Option<Size>, rest: string)
    requires size.Some? ==> SizeReadsBackNumbers(size.value)
    ensures ReadView(v.Name() + SizeSuffix(size) + "]" + rest) == Some(Parsed(CanonItem(ViewItem(v, size)), rest))
  {
    var suffix := SizeSuffix(size);
    if suffix == "" {
      assert v.Name() + suffix + "]" + rest == v.Name() + "]" + rest;
      BareViewReadsBack(v, rest);
    } else {
      SizedViewReadsBack(v, size.value, rest);
    }
  }

  lemma ViewItemReadsBack(v: ViewId, size: Option<Size>, rest: string)
    requires size.Some? ==> SizeReadsBackNumbers(size.value)
    ensures ReadItem(ViewItem(v, size).String() + rest) == Some(Parsed(CanonItem(ViewItem(v, size)), rest))
  {
    var inner := v.Name() + SizeSuffix(size) + "]";
    ViewItemShape(v, size);
    AfterHead("[" + inner, rest);
    assert ("[" + inner)[1..] + rest == v.Name() + SizeSuffix(size) + "]" + rest;
    ReadItemViewStep(ViewItem(v, size).String() + rest);
    ViewBodyReadsBack(v, size, rest);
  }

  /** Every item reads back as its canonical form, leaving what follows it. */
  lemma ItemReadsBack(it: Item, rest: string)
    requires ItemReadsBackNumbers(it)
    requires ItemBoundary(rest)
    ensures ReadItem(it.String() + rest) == Some(Parsed(CanonItem(it), rest))
  {
    match it
    case SuperViewItem =>
      assert (it.String() + rest)[1..] == rest;
    case SpaceItem(sp) =>
      SpaceItemReadsBack(sp, rest);
    case ViewItem(v, size) =>
      ViewItemReadsBack(v, size, rest);
  }

  /** Items one after another until the text is used up. */
  function ReadItems(s: string): (r: Option<seq<Item>>)
    ensures r.Some? && s != [] ==> |r.value| > 0
    decreases |s|
  {
    if s == [] then Some([])
    else
      match ReadItem(s)
      case None => None
      case Some(Parsed(it, rest)) =>
        match ReadItems(rest)
        case None => None
        case Some(more) => Some([it] + more)
  }

  /** One step of `ReadItems`: an item that reads back, then the rest. */
  lemma ReadItemsCons(s: string, it: Item, rest: string, more: seq<Item>)
    requires s != [] && ReadItem(s) == Some(Parsed(it, rest)) && ReadItems(rest) == Some(more)
    ensures ReadItems(s) == Some([it] + more)
  {
  }

  /** A rendered list of items is a valid place for an item to end. */
  lemma ItemsTextBoundary(items: seq<Item>)
    ensures ItemBoundary(ItemsText(items))
  {
    if items != [] {
      assert items == [items[0]] + items[1..];
      ItemsTextCons(items[0], items[1..]);
    }
  }

  /** Canonical forms are taken item by item. */
  lemma CanonCons(head: Item, tail: seq<Item>)
    ensures Canon([head] + tail) == [CanonItem(head)] + Canon(tail)
  {
  }

  lemma ItemThenItemsReadBack(head: Item, rest: string, tail: seq<Item>)
    requires ItemReadsBackNumbers(head)
    requires ItemBoundary(rest)
    requires ReadItems(rest) == Some(Canon(tail))
    ensures ReadItems(head.String() + rest) == Some(Canon([head] + tail))
  {
    ItemReadsBack(head, rest);
    ReadItemsCons(head.String() + rest, CanonItem(head), rest, Canon(tail));
    CanonCons(head, tail);
  }

  lemma {:induction false} ItemsReadBack(items: seq<Item>)
    requires NumbersReadBack(items)
    ensures ReadItems(ItemsText(items)) == Some(Canon(items))
  {
    if items == [] {
      assert Canon(items) == [];
    } else {
      var head, tail := items[0], items[1..];
      assert items == [head] + tail;
      ItemsTextCons(head, tail);
      ItemsTextBoundary(tail);
      ItemsReadBack(tail);
      ItemThenItemsReadBack(head, ItemsText(tail), tail);
    }
  }

  /** A whole format string: the direction, then the items. */
  function ReadFormat(s: string): (r: Option<(Direction, seq<Item>)>)
    ensures r.Some? ==> |s| >= 2 && s[..2] == r.value.0.String()
  {
    if |s| >= 2 && s[..2] == "V:" then
      match ReadItems(s[2..])
      case None => None
      case Some(items) => Some((Vertical, items))
    else if |s| >= 2 && s[..2] == "H:" then
      match ReadItems(s[2..])
      case None => None
      case Some(items) => Some((Horizontal, items))
    else None
  }

  /** Reading a layout's format string gives back its direction and canonical items. */
  lemma FormatReadsBack(vfl: VFL)
    requires NumbersReadBack(vfl.items)
    ensures ReadFormat(vfl.Format()) == Some((vfl.direction, Canon(vfl.items)))
  {
    ItemsReadBack(vfl.items);
  }

  /**
   * The format string loses nothing but what `CanonItem` forgets: two layouts
   * render alike exactly when their directions and canonical items agree.
   */
  lemma FormatDeterminesLayout(a: VFL, b: VFL)
    requires NumbersReadBack(a.items) && NumbersReadBack(b.items)
    ensures a.Format() == b.Format() <==> a.direction == b.direction && Canon(a.items) == Canon(b.items)
  {
    FormatReadsBack(a);
    FormatReadsBack(b);
    if a.direction == b.direction && Canon(a.items) == Canon(b.items) {
      CanonKeepsText(a.items);
      CanonKeepsText(b.items);
      var fa, fb := a.Format(), b.Format();
      assert fa == fa[..2] + fa[2..];
      assert fb == fb[..2] + fb[2..];
    }
  }
}
