/** `validateMenuData` (dynamic-menu.js): the ordered list of problems found
    in a menu description. `ValidationErrors` is the specification, written
    recursively; `ValidateMenuData` is the source's loop, proved equal to it. */
module MenuValidation {
  import opened Wrappers
  import opened MenuModel

  /** One message of the error list. The source's messages are fixed texts;
      the per-item ones embed the item's index, kept here as `index`. */
  datatype ValidationError =
    | MenuDataMissing
    | LogoIncomplete
    | ItemsNotArray
    | RequiredFieldsMissing(index: nat)
    | MegaWithoutColumns(index: nat)
    | DropdownWithoutItems(index: nat)
  {
    predicate IsItemError() {
      RequiredFieldsMissing? || MegaWithoutColumns? || DropdownWithoutItems?
    }

    /** The item an error is about; -1 for the errors about the whole document. */
    function Position(): int {
      if IsItemError() then index else -1
    }
  }

  predicate LogoComplete(logo: Option<Logo>) {
    logo.Some? && Truthy(logo.value.text) && Truthy(logo.value.url)
  }

  predicate HasRequiredFields(item: MenuItem) {
    Truthy(item.id) && Truthy(item.title) && Truthy(item.kind)
  }

  /** An item the per-item checks accept. */
  predicate ItemValid(item: MenuItem) {
    && HasRequiredFields(item)
    && (IsMega(item) ==> item.columns.Some?)
    && (IsDropdown(item) ==> item.items.Some?)
  }

  /** A document the validator accepts, stated without the error list. */
  predicate WellFormed(doc: Document) {
    && doc.menuData.Some?
    && LogoComplete(doc.menuData.value.logo)
    && doc.menuData.value.items.Some?
    && forall i | 0 <= i < |doc.menuData.value.items.value| ::
         ItemValid(doc.menuData.value.items.value[i])
  }

  /** The errors the loop body pushes for the item at `index`. */
  function ItemErrors(item: MenuItem, index: nat): seq<ValidationError> {
    (if HasRequiredFields(item) then [] else [RequiredFieldsMissing(index)])
    + (if IsMega(item) && item.columns.None? then [MegaWithoutColumns(index)] else [])
    + (if IsDropdown(item) && item.items.None? then [DropdownWithoutItems(index)] else [])
  }

  /** The errors of all items, in index order. */
  function ItemsErrors(items: seq<MenuItem>): seq<ValidationError>
    decreases |items|
  {
    if items == [] then []
    else ItemsErrors(items[..|items| - 1]) + ItemErrors(items[|items| - 1], |items| - 1)
  }

  function LogoErrors(logo: Option<Logo>): seq<ValidationError> {
    if LogoComplete(logo) then [] else [LogoIncomplete]
  }

  /** The specification of the validator's result. */
  function ValidationErrors(doc: Document): seq<ValidationError> {
    match doc.menuData
    case None => [MenuDataMissing]
    case Some(data) =>
      match data.items
      case None => LogoErrors(data.logo) + [ItemsNotArray]
      case Some(items) => LogoErrors(data.logo) + ItemsErrors(items)
  }

  /** `errors.push(e)` when `cond` holds. */
  function PushIf(errors: seq<ValidationError>, cond: bool, e: ValidationError): seq<ValidationError> {
    if cond then errors + [e] else errors
  }

  /** The loop body's three conditional pushes append exactly the item's errors. */
  lemma ItemPushesAppendItemErrors(before: seq<ValidationError>, item: MenuItem, index: nat)
    ensures PushIf(PushIf(PushIf(before, !HasRequiredFields(item), RequiredFieldsMissing(index)),
                          IsMega(item) && item.columns.None?, MegaWithoutColumns(index)),
                   IsDropdown(item) && item.items.None?, DropdownWithoutItems(index))
            == before + ItemErrors(item, index)
  {
    var a := if HasRequiredFields(item) then [] else [RequiredFieldsMissing(index)];
    var b := if IsMega(item) && item.columns.None? then [MegaWithoutColumns(index)] else [];
    var c := if IsDropdown(item) && item.items.None? then [DropdownWithoutItems(index)] else [];
    assert PushIf(before, !HasRequiredFields(item), RequiredFieldsMissing(index)) == before + a;
    assert ItemErrors(item, index) == a + b + c;
    assert before + a + b + c == before + (a + b + c);
  }

  /** One more item appends its own errors to those of the items before it. */
  lemma ItemsErrorsStep(items: seq<MenuItem>, index: nat)
    requires index < |items|
    ensures ItemsErrors(items[..index + 1]) == ItemsErrors(items[..index]) + ItemErrors(items[index], index)
  {
    assert items[..index + 1][..index] == items[..index];
  }

  /** One pass of the validator's loop keeps its invariant. */
  lemma ValidationLoopStep(header: seq<ValidationError>, items: seq<MenuItem>, index: nat, errors: seq<ValidationError>)
    requires index < |items|
    requires errors == header + ItemsErrors(items[..index])
    ensures var item := items[index];
      PushIf(PushIf(PushIf(errors, !HasRequiredFields(item), RequiredFieldsMissing(index)),
                    IsMega(item) && item.columns.None?, MegaWithoutColumns(index)),
             IsDropdown(item) && item.items.None?, DropdownWithoutItems(index))
      == header + ItemsErrors(items[..index + 1])
  {
    ItemPushesAppendItemErrors(errors, items[index], index);
    ItemsErrorsStep(items, index);
  }

  /** The validator as the source writes it: early returns, then one pass
      over the items that pushes onto `errors`. */
  method ValidateMenuData(doc: Document) returns (errors: seq<ValidationError>)
    ensures errors == ValidationErrors(doc)
  {
    errors := [];
    if doc.menuData.None? {
      errors := errors + [MenuDataMissing];
      return;
    }
    var data := doc.menuData.value;
    errors := PushIf(errors, !LogoComplete(data.logo), LogoIncomplete);
    if data.items.None? {
      errors := errors + [ItemsNotArray];
      return;
    }
    var items := data.items.value;
    ghost var header := errors;
    assert header == LogoErrors(data.logo);
    var index := 0;
    while index < |items|
      invariant 0 <= index <= |items|
      invariant header == LogoErrors(data.logo)
      invariant errors == header + ItemsErrors(items[..index])
    {
      var item := items[index];
      ghost var before := errors;
      errors := PushIf(errors, !HasRequiredFields(item), RequiredFieldsMissing(index));
      errors := PushIf(errors, IsMega(item) && item.columns.None?, MegaWithoutColumns(index));
      errors := PushIf(errors, IsDropdown(item) && item.items.None?, DropdownWithoutItems(index));
      ValidationLoopStep(header, items, index, before);
      index := index + 1;
    }
    assert items[..index] == items;
    assert ValidationErrors(doc) == header + ItemsErrors(items);
  }

  // ---------------------------------------------------------------------
  // Properties

  /** Each item contributes at most two errors, all carrying its index, and
      none exactly when the item is valid. */
  lemma ItemErrorsShape(item: MenuItem, index: nat)
    ensures |ItemErrors(item, index)| <= 2
    ensures forall k | 0 <= k < |ItemErrors(item, index)| ::
      ItemErrors(item, index)[k].IsItemError() && ItemErrors(item, index)[k].index == index
    ensures ItemErrors(item, index) == [] <==> ItemValid(item)
  {
  }

  lemma {:induction false} ItemsErrorsEmptyIff(items: seq<MenuItem>)
    ensures ItemsErrors(items) == [] <==> forall i | 0 <= i < |items| :: ItemValid(items[i])
    decreases |items|
  {
    if items != [] {
      var init := items[..|items| - 1];
      ItemsErrorsEmptyIff(init);
      ItemErrorsShape(items[|items| - 1], |items| - 1);
      if forall i | 0 <= i < |items| :: ItemValid(items[i]) {
        assert forall i | 0 <= i < |init| :: ItemValid(init[i]) by {
          forall i | 0 <= i < |init| ensures ItemValid(init[i]) {
            assert init[i] == items[i];
          }
        }
      } else {
        var j :| 0 <= j < |items| && !ItemValid(items[j]);
        if j < |init| {
          assert init[j] == items[j];
        }
      }
    }
  }

  /** Per-item errors come in item-index order, each names an existing item,
      and there are at most two per item. */
  lemma {:induction false} ItemsErrorsOrdered(items: seq<MenuItem>)
    ensures |ItemsErrors(items)| <= 2 * |items|
    ensures forall k | 0 <= k < |ItemsErrors(items)| ::
      ItemsErrors(items)[k].IsItemError() && ItemsErrors(items)[k].index < |items|
    ensures forall j, k | 0 <= j < k < |ItemsErrors(items)| ::
      ItemsErrors(items)[j].Position() <= ItemsErrors(items)[k].Position()
    decreases |items|
  {
    if items != [] {
      var n := |items| - 1;
      ItemsErrorsOrdered(items[..n]);
      ItemErrorsShape(items[n], n);
      var front: seq<ValidationError>, back: seq<ValidationError> := ItemsErrors(items[..n]), ItemErrors(items[n], n);
      assert ItemsErrors(items) == front + back;
      forall j, k | 0 <= j < k < |front + back|
        ensures (front + back)[j].Position() <= (front + back)[k].Position()
      {
        if k < |front| {
        } else if j < |front| {
          assert (front + back)[j] == front[j];
          assert (front + back)[k] == back[k - |front|];
        } else {
          assert (front + back)[j] == back[j - |front|];
          assert (front + back)[k] == back[k - |front|];
        }
      }
    }
  }

  /** The result is empty exactly when the document is well-formed. */
  lemma ValidIffWellFormed(doc: Document)
    ensures ValidationErrors(doc) == [] <==> WellFormed(doc)
  {
    if doc.menuData.Some? && doc.menuData.value.items.Some? {
      ItemsErrorsEmptyIff(doc.menuData.value.items.value);
    }
  }

  /** Without `menuData` there is exactly one error and nothing else is checked. */
  lemma MissingMenuDataOnly(doc: Document)
    requires doc.menuData.None?
    ensures ValidationErrors(doc) == [MenuDataMissing]
  {
  }

  /** When `items` is not an array: the optional logo error, then the array
      error, and no per-item error. */
  lemma ItemsNotArrayShortCircuits(doc: Document)
    requires doc.menuData.Some? && doc.menuData.value.items.None?
    ensures 1 <= |ValidationErrors(doc)| <= 2
    ensures ValidationErrors(doc)[|ValidationErrors(doc)| - 1] == ItemsNotArray
    ensures |ValidationErrors(doc)| == 2 <==> ValidationErrors(doc)[0] == LogoIncomplete
    ensures forall k | 0 <= k < |ValidationErrors(doc)| :: !ValidationErrors(doc)[k].IsItemError()
    ensures ValidationErrors(doc) ==
      (if LogoComplete(doc.menuData.value.logo) then [] else [LogoIncomplete]) + [ItemsNotArray]
    ensures |ValidationErrors(doc)| == 2 <==> !LogoComplete(doc.menuData.value.logo)
  {
  }

  /** With an array of items: the logo error, if any, comes first, the rest
      are per-item errors in index order, at most 1 + 2·|items| in all. */
  lemma ValidationErrorsOrdered(doc: Document)
    requires doc.menuData.Some? && doc.menuData.value.items.Some?
    ensures var errs, items := ValidationErrors(doc), doc.menuData.value.items.value;
      && |errs| <= 1 + 2 * |items|
      && (forall k | 0 <= k < |errs| ::
            errs[k] == LogoIncomplete || (errs[k].IsItemError() && errs[k].index < |items|))
      && (forall k | 0 < k < |errs| :: errs[k].IsItemError() && errs[k].index < |items|)
      && (LogoIncomplete in errs <==> !LogoComplete(doc.menuData.value.logo))
      && (forall j, k | 0 <= j < k < |errs| :: errs[j].Position() <= errs[k].Position())
  {
    var items := doc.menuData.value.items.value;
    ItemsErrorsOrdered(items);
    var logo: seq<ValidationError>, rest: seq<ValidationError> := LogoErrors(doc.menuData.value.logo), ItemsErrors(items);
    assert ValidationErrors(doc) == logo + rest;
    forall j, k | 0 <= j < k < |logo + rest|
      ensures (logo + rest)[j].Position() <= (logo + rest)[k].Position()
    {
      if j >= |logo| {
        assert (logo + rest)[j] == rest[j - |logo|];
        assert (logo + rest)[k] == rest[k - |logo|];
      } else {
        assert (logo + rest)[k] == rest[k - |logo|];
      }
    }
    if LogoComplete(doc.menuData.value.logo) {
      assert logo + rest == rest;
      assert LogoIncomplete !in rest;
    }
  }

  /** A document whose logo has no `url` is reported with the logo error. */
  lemma MissingLogoUrlReported(doc: Document)
    requires doc.menuData.Some? && doc.menuData.value.logo.Some?
    requires !Truthy(doc.menuData.value.logo.value.url)
    ensures LogoIncomplete in ValidationErrors(doc)
  {
    assert ValidationErrors(doc)[0] == LogoIncomplete;
  }
}
