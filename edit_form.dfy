/** The product edit form as a state machine over values: the state of the
    component together with what it has done to its collaborators, and one
    function per operation giving the state that operation leaves behind.
    The class in ProductEdit is proved to follow these functions, and the
    lemmas here state what the operations promise. */
module EditForm {

  import opened Wrappers
  import opened Products

  const InitialTitle := "Product Edit"
  const NotFoundTitle := "No product found"
  const AddTitle := "Add Product"
  const EditTitlePrefix := "Edit Product: "
  const ValidationError := "Please correct the validation errors."
  const ProductListPath := "/products"
  const InfoTab := "info"
  const TagsTab := "tags"

  /** The component's fields, then the log of its collaborators: requests to
      the product service, messages posted to the message service, and the
      paths the router was asked to navigate to. */
  datatype State = State(
    pageTitle: string,
    errorMessage: Option<string>,
    dataIsValid: Option<map<string, bool>>,
    currentProduct: ProductRef,
    originalProduct: ProductRef,
    calls: seq<Call>,
    messages: seq<string>,
    navigations: seq<string>)

  /** A freshly constructed component: default title, no error, an empty
      validity map and no product. */
  function Initial(): (s: State)
    ensures Inv(s) && !Dirty(s)
  {
    State(InitialTitle, None, Some(map[]), NullRef, NullRef, [], [], [])
  }

  /** What every operation keeps: the working copy is never the empty object,
      a snapshot record exists exactly when a working record does, and the
      validity map only ever has the two tab keys. */
  predicate Inv(s: State)
  {
    && !s.currentProduct.EmptyRecord?
    && (s.currentProduct.Record? <==> s.originalProduct.Record?)
    && (s.dataIsValid.Some? ==> s.dataIsValid.value.Keys <= {InfoTab, TagsTab})
  }

  /** `isDirty`: the snapshot and the working copy serialise differently. */
  predicate Dirty(s: State)
  {
    s.originalProduct != s.currentProduct
  }

  // ---------------------------------------------------------------------
  // Loading a product

  /** The `product` setter: the value becomes the working copy and its
      shallow clone the snapshot. A loaded product is clean; loading nothing
      leaves the snapshot `{}` against a `null` working copy, which is dirty. */
  function SetProduct(s: State, value: Option<Product>): (t: State)
    ensures value.Some? ==> t.currentProduct == t.originalProduct == Record(value.value)
    ensures Dirty(t) <==> value.None?
    ensures t == s.(currentProduct := t.currentProduct, originalProduct := t.originalProduct)
    ensures Inv(s) ==> Inv(t)
  {
    s.(currentProduct := Ref(value), originalProduct := Spread(value))
  }

  /** A form edit through two-way binding: it replaces the working copy and
      leaves the snapshot alone. */
  function EditCopy(s: State, edited: Product): (t: State)
    requires s.currentProduct.Record?
    ensures t.originalProduct == s.originalProduct
    ensures Dirty(t) <==> s.originalProduct != Record(edited)
    ensures t == s.(currentProduct := t.currentProduct)
    ensures Inv(s) ==> Inv(t)
  {
    s.(currentProduct := Record(edited))
  }

  /** The three situations the page title distinguishes. */
  datatype Mode = NotFound | Adding | Editing(name: string)

  function ModeOf(value: Option<Product>): Mode
  {
    match value
    case None => NotFound
    case Some(p) => if p.id == 0 then Adding else Editing(Render(p.productName))
  }

  /** The title `onProductRetrieved` shows for a loaded value. */
  function Title(value: Option<Product>): string
  {
    match value
    case None => NotFoundTitle
    case Some(p) =>
      if p.id == 0 then AddTitle else EditTitlePrefix + Render(p.productName)
  }

  /** Reads the mode back from a title; `None` for a title no load produces. */
  function TitleMode(title: string): Option<Mode>
  {
    if title == NotFoundTitle then Some(NotFound)
    else if title == AddTitle then Some(Adding)
    else if |EditTitlePrefix| <= |title| && title[..|EditTitlePrefix|] == EditTitlePrefix
    then Some(Editing(title[|EditTitlePrefix|..]))
    else None
  }

  /** The title tells the three modes apart, and in edit mode it carries the
      product's name unchanged. */
  lemma TitleShowsMode(value: Option<Product>)
    ensures TitleMode(Title(value)) == Some(ModeOf(value))
  {
    if value.Some? && value.value.id != 0 {
      var name := Render(value.value.productName);
      var title := EditTitlePrefix + name;
      assert title[0] == 'E';
      assert title[..|EditTitlePrefix|] == EditTitlePrefix;
      assert title[|EditTitlePrefix|..] == name;
    }
  }

  /** `onProductRetrieved`: assign the product, then set the title. */
  function Retrieved(s: State, value: Option<Product>): (t: State)
    ensures t.pageTitle == Title(value)
    ensures TitleMode(t.pageTitle) == Some(ModeOf(value))
    ensures Dirty(t) <==> value.None?
    ensures t == SetProduct(s, value).(pageTitle := t.pageTitle)
    ensures Inv(s) ==> Inv(t)
  {
    TitleShowsMode(value);
    var u := SetProduct(s, value);
    if u.currentProduct.NullRef? then u.(pageTitle := NotFoundTitle)
    else if u.currentProduct.product.id == 0 then u.(pageTitle := AddTitle)
    else u.(pageTitle := EditTitlePrefix + Render(u.currentProduct.product.productName))
  }

  /** The route-data callback of `ngOnInit`: the resolver's error replaces
      the error message (clearing it when there is none), then the resolved
      product is loaded. */
  function Resolved(s: State, value: Option<Product>, error: Option<string>): (t: State)
    ensures t.errorMessage == error
    ensures t == Retrieved(s, value).(errorMessage := error)
    ensures Inv(s) ==> Inv(t)
  {
    Retrieved(s.(errorMessage := error), value)
  }

  // ---------------------------------------------------------------------
  // Validation

  /** The 'info' tab rule as the component writes it. */
  predicate InfoValid(p: Product)
  {
    Truthy(p.productName) && |p.productName.chars| >= 3 && Truthy(p.productCode)
  }

  /** The 'tags' tab rule as the component writes it. */
  predicate TagsValid(p: Product)
  {
    Truthy(p.category) && |p.category.chars| >= 3
  }

  /** The form's requirements in plain terms: a name of at least three
      characters, a non-empty code and a category of at least three characters. */
  predicate FormValid(p: Product)
  {
    && p.productName.Str? && |p.productName.chars| >= 3
    && p.productCode.Str? && p.productCode.chars != ""
    && p.category.Str? && |p.category.chars| >= 3
  }

  /** The map `validate` builds: exactly the two tab keys, each holding its rule. */
  function Validity(p: Product): (m: map<string, bool>)
    ensures m.Keys == {InfoTab, TagsTab}
    ensures m[InfoTab] <==> InfoValid(p)
    ensures m[TagsTab] <==> TagsValid(p)
  {
    map[InfoTab := InfoValid(p), TagsTab := TagsValid(p)]
  }

  /** Every entry of the map is `true`. */
  predicate AllTrue(m: map<string, bool>)
  {
    forall k :: k in m ==> m[k]
  }

  /** Both tabs pass exactly when the plain-terms requirements hold. */
  lemma ValidityAllTrue(p: Product)
    ensures AllTrue(Validity(p)) <==> FormValid(p)
  {
  }

  /** `validate`: the map is rebuilt from scratch for the working copy, so no
      earlier entry survives; nothing else changes. */
  function Validated(s: State): (t: State)
    requires s.currentProduct.Record?
    ensures t.dataIsValid == Some(Validity(s.currentProduct.product))
    ensures t == s.(dataIsValid := t.dataIsValid)
    ensures Inv(s) ==> Inv(t)
  {
    var p := s.currentProduct.product;
    var m: map<string, bool> := map[];
    var m := m[InfoTab := InfoValid(p)];
    var m := m[TagsTab := TagsValid(p)];
    s.(dataIsValid := Some(m))
  }

  /** JavaScript truthiness of the optional `path` argument. */
  predicate PathGiven(path: Option<string>)
  {
    path.Some? && path.value != ""
  }

  /** The properties every object literal such as `{}` inherits from
      `Object.prototype` (section 20.1.3 of ECMA-262 and its Annex B). */
  const ObjectPrototypeMembers: set<string> := {
    "constructor", "hasOwnProperty", "isPrototypeOf", "propertyIsEnumerable",
    "toLocaleString", "toString", "valueOf", "__proto__",
    "__defineGetter__", "__defineSetter__", "__lookupGetter__", "__lookupSetter__"}

  /** What `isValid` can return: a boolean, a member inherited from
      `Object.prototype` (a function, or the prototype itself for
      `__proto__`), or `undefined`. */
  datatype Property = Flag(flag: bool) | Inherited(member: string) | NoProperty

  /** Property lookup `m[key]` on an object built from `{}`: an own entry
      first, then the inherited members, else `undefined`. */
  function Lookup(m: map<string, bool>, key: string): Property
  {
    if key in m then Flag(m[key])
    else if key in ObjectPrototypeMembers then Inherited(key)
    else NoProperty
  }

  /** The value `isValid(path)` returns for the working copy `p`: with no
      path, whether every tab passes; with a path, that tab's entry, an
      inherited member of `Object.prototype`, or `undefined`. */
  function IsValidResult(p: Product, path: Option<string>): (r: Property)
    ensures !PathGiven(path) ==> r == Flag(FormValid(p))
    ensures path == Some(InfoTab) ==> r == Flag(InfoValid(p))
    ensures path == Some(TagsTab) ==> r == Flag(TagsValid(p))
    ensures PathGiven(path) && path.value in ObjectPrototypeMembers ==> r == Inherited(path.value)
    ensures PathGiven(path) && path.value !in {InfoTab, TagsTab} + ObjectPrototypeMembers
            ==> r.NoProperty?
  {
    ValidityAllTrue(p);
    var m := Validity(p);
    if PathGiven(path) then Lookup(m, path.value)
    else Flag(AllTrue(m))
  }

  /** Asking about one tab computes the same verdicts as asking about all:
      the form passes exactly when each tab does. */
  lemma WholeFormIsBothTabs(p: Product)
    ensures IsValidResult(p, None) == Flag(true) <==>
            IsValidResult(p, Some(InfoTab)) == Flag(true) && IsValidResult(p, Some(TagsTab)) == Flag(true)
  {
    ValidityAllTrue(p);
  }

  // ---------------------------------------------------------------------
  // Completing, saving and deleting

  /** `reset`: the validity map, working copy and snapshot are all cleared. */
  function Reset(s: State): (t: State)
    ensures t.dataIsValid.None? && t.currentProduct.NullRef? && t.originalProduct.NullRef?
    ensures !Dirty(t)
    ensures t == s.(dataIsValid := None, currentProduct := NullRef, originalProduct := NullRef)
    ensures Inv(t)
  {
    s.(dataIsValid := None, currentProduct := NullRef, originalProduct := NullRef)
  }

  /** `onSaveComplete(message)`: post the message if it is a non-empty
      string, reset, and navigate to the product list. */
  function SaveComplete(s: State, message: Option<string>): (t: State)
    ensures t.messages == s.messages + (if PathGiven(message) then [message.value] else [])
    ensures t.navigations == s.navigations + [ProductListPath]
    ensures t.dataIsValid.None? && t.currentProduct.NullRef? && t.originalProduct.NullRef?
    ensures t.pageTitle == s.pageTitle && t.errorMessage == s.errorMessage && t.calls == s.calls
    ensures Inv(t)
  {
    var logged := if PathGiven(message) then s.(messages := s.messages + [message.value]) else s;
    var cleared := Reset(logged);
    cleared.(navigations := cleared.navigations + [ProductListPath])
  }

  /** The message posted after a successful save. */
  function SaveMessage(p: Product): (m: string)
    ensures m != ""
  {
    if p.id == 0 then "The new " + Render(p.productName) + " was saved"
    else "The updated " + Render(p.productName) + " was saved"
  }

  /** The message posted after a delete. */
  function DeleteMessage(p: Product): (m: string)
    ensures m != ""
  {
    Render(p.productName) + " was deleted"
  }

  /** The request a save issues: create for an unsaved product, else update. */
  function SaveCall(p: Product): (c: Call)
    ensures c.CreateCall? <==> p.id == 0
    ensures (c.CreateCall? || c.UpdateCall?) && c.p == p
  {
    if p.id == 0 then CreateCall(p) else UpdateCall(p)
  }

  /** `saveProduct`: validate; when the form fails, only the error message
      and the map change. When it passes, exactly one create or update is
      issued; success posts exactly one message, clears the form and returns
      to the list, failure stores the error and goes nowhere. */
  function Save(s: State, outcome: Outcome): (t: State)
    requires s.currentProduct.Record?
    ensures var p := s.currentProduct.product;
      !FormValid(p) ==> t == s.(dataIsValid := Some(Validity(p)), errorMessage := Some(ValidationError))
    ensures var p := s.currentProduct.product;
      FormValid(p) ==> t.calls == s.calls + [SaveCall(p)]
    ensures var p := s.currentProduct.product;
      FormValid(p) && outcome.Succeeded? ==>
        && t.messages == s.messages + [SaveMessage(p)]
        && t.navigations == s.navigations + [ProductListPath]
        && t.dataIsValid.None? && t.currentProduct.NullRef? && t.originalProduct.NullRef?
        && t.errorMessage == s.errorMessage
    ensures var p := s.currentProduct.product;
      FormValid(p) && outcome.Failed? ==>
        t == s.(dataIsValid := Some(Validity(p)), calls := t.calls, errorMessage := Some(outcome.error))
    ensures t.pageTitle == s.pageTitle
    ensures Inv(s) ==> Inv(t)
  {
    var p := s.currentProduct.product;
    var v := Validated(s);
    if IsValidResult(p, None) == Flag(true) then
      var issued := v.(calls := v.calls + [SaveCall(p)]);
      match outcome
      case Succeeded => SaveComplete(issued, Some(SaveMessage(p)))
      case Failed(e) => issued.(errorMessage := Some(e))
    else
      v.(errorMessage := Some(ValidationError))
  }

  /** `deleteProduct`: an unsaved product is dropped without a request; a
      saved one is deleted only when the user confirms. A declined prompt
      changes nothing; a failed request stores the error and goes nowhere. */
  function Delete(s: State, confirmed: bool, outcome: Outcome): (t: State)
    requires s.currentProduct.Record?
    ensures var p := s.currentProduct.product;
      p.id == 0 ==> t == SaveComplete(s, Some(DeleteMessage(p))) && t.calls == s.calls
    ensures var p := s.currentProduct.product;
      p.id != 0 && !confirmed ==> t == s
    ensures var p := s.currentProduct.product;
      p.id != 0 && confirmed ==> t.calls == s.calls + [DeleteCall(p.id)]
    ensures var p := s.currentProduct.product;
      p.id != 0 && confirmed && outcome.Succeeded? ==>
        && t.messages == s.messages + [DeleteMessage(p)]
        && t.navigations == s.navigations + [ProductListPath]
        && t.currentProduct.NullRef? && t.originalProduct.NullRef?
        && t == SaveComplete(s.(calls := t.calls), Some(DeleteMessage(p)))
    ensures var p := s.currentProduct.product;
      p.id != 0 && confirmed && outcome.Failed? ==>
        t == s.(calls := t.calls, errorMessage := Some(outcome.error))
    ensures Inv(s) ==> Inv(t)
  {
    var p := s.currentProduct.product;
    if p.id == 0 then
      SaveComplete(s, Some(DeleteMessage(p)))
    else if confirmed then
      var issued := s.(calls := s.calls + [DeleteCall(p.id)]);
      match outcome
      case Succeeded => SaveComplete(issued, Some(DeleteMessage(p)))
      case Failed(e) => issued.(errorMessage := Some(e))
    else
      s
  }

  // ---------------------------------------------------------------------
  // Sequences of operations

  /** One operation on the component, with the arguments and outcomes that
      stand for the browser and the services. */
  datatype Op =
    | Assign(value: Option<Product>)
    | Retrieve(value: Option<Product>)
    | Resolve(value: Option<Product>, error: Option<string>)
    | Edit(edited: Product)
    | Validate
    | Check(path: Option<string>)
    | SaveOp(outcome: Outcome)
    | DeleteOp(confirmed: bool, outcome: Outcome)
    | Complete(message: Option<string>)
    | Clear

  /** The operations that dereference the working copy, which throws in
      JavaScript when it is `null`. */
  predicate NeedsProduct(op: Op)
  {
    op.Edit? || op.Validate? || op.Check? || op.SaveOp? || op.DeleteOp?
  }

  /** The operations that assign a new snapshot. */
  predicate Assigns(op: Op)
  {
    op.Assign? || op.Retrieve? || op.Resolve?
  }

  /** The state after one operation, or `None` where JavaScript would throw. */
  function Step(s: State, op: Op): (r: Option<State>)
    ensures r.None? <==> NeedsProduct(op) && !s.currentProduct.Record?
    ensures r.Some? && Inv(s) ==> Inv(r.value)
    ensures r.Some? && !Assigns(op) ==>
      r.value.originalProduct == s.originalProduct || r.value.originalProduct == NullRef
    ensures r.Some? ==> s.calls <= r.value.calls && s.messages <= r.value.messages
  {
    if NeedsProduct(op) && !s.currentProduct.Record? then None
    else
      match op
      case Assign(value) => Some(SetProduct(s, value))
      case Retrieve(value) => Some(Retrieved(s, value))
      case Resolve(value, error) => Some(Resolved(s, value, error))
      case Edit(edited) => Some(EditCopy(s, edited))
      case Validate => Some(Validated(s))
      case Check(_) => Some(Validated(s))
      case SaveOp(outcome) => Some(Save(s, outcome))
      case DeleteOp(confirmed, outcome) => Some(Delete(s, confirmed, outcome))
      case Complete(message) => Some(SaveComplete(s, message))
      case Clear => Some(Reset(s))
  }

  /** The state after a sequence of operations, or `None` if one throws. */
  function Run(s: State, ops: seq<Op>): Option<State>
    decreases |ops|
  {
    if ops == [] then Some(s)
    else
      match Step(s, ops[0])
      case None => None
      case Some(t) => Run(t, ops[1..])
  }

  /** Every sequence of operations keeps the invariant. */
  lemma {:induction false} RunKeepsInv(s: State, ops: seq<Op>)
    requires Inv(s)
    ensures Run(s, ops).Some? ==> Inv(Run(s, ops).value)
    decreases |ops|
  {
    if ops != [] {
      var r := Step(s, ops[0]);
      if r.Some? {
        RunKeepsInv(r.value, ops[1..]);
      }
    }
  }

  /** The snapshot is never altered except by assigning a product: without
      an assignment it stays what it was or is cleared. */
  lemma {:induction false} SnapshotOnlyAssigned(s: State, ops: seq<Op>)
    requires forall i :: 0 <= i < |ops| ==> !Assigns(ops[i])
    ensures Run(s, ops).Some? ==>
      Run(s, ops).value.originalProduct == s.originalProduct || Run(s, ops).value.originalProduct == NullRef
    decreases |ops|
  {
    if ops != [] {
      var r := Step(s, ops[0]);
      if r.Some? {
        assert forall i :: 0 <= i < |ops[1..]| ==> !Assigns(ops[1..][i]) by {
          forall i | 0 <= i < |ops[1..]| ensures !Assigns(ops[1..][i]) {
            assert ops[1..][i] == ops[i + 1];
          }
        }
        SnapshotOnlyAssigned(r.value, ops[1..]);
      }
    }
  }

  /** What the component has sent to its services and to the message service
      is only ever extended, never rewritten. */
  lemma {:induction false} LogsOnlyGrow(s: State, ops: seq<Op>)
    ensures Run(s, ops).Some? ==>
      s.calls <= Run(s, ops).value.calls && s.messages <= Run(s, ops).value.messages
    decreases |ops|
  {
    if ops != [] {
      var r := Step(s, ops[0]);
      if r.Some? {
        LogsOnlyGrow(r.value, ops[1..]);
      }
    }
  }

  /** A freshly loaded product is clean, any edit that changes it makes it
      dirty, and an edit back to the loaded value makes it clean again. */
  lemma LoadThenEdit(s: State, p: Product, q: Product)
    ensures !Dirty(Retrieved(s, Some(p)))
    ensures Dirty(EditCopy(Retrieved(s, Some(p)), q)) <==> q != p
  {
  }

  /** A product with id 0, name "Widget" and code "W1" but no category is
      refused on save: the 'tags' tab fails. With a category it is created
      and the list page is shown again. */
  lemma WidgetScenario(s: State, category: string)
    requires |category| >= 3
    ensures var w := Product(0, Str("Widget"), Str("W1"), Undefined, Undefined, []);
      var t := Save(Retrieved(s, Some(w)), Succeeded);
      t.calls == s.calls && t.errorMessage == Some(ValidationError)
    ensures var w := Product(0, Str("Widget"), Str("W1"), Str(category), Undefined, []);
      var t := Save(Retrieved(s, Some(w)), Succeeded);
      && t.calls == s.calls + [CreateCall(w)]
      && t.messages == s.messages + ["The new Widget was saved"]
      && t.navigations == s.navigations + [ProductListPath]
  {
    var w := Product(0, Str("Widget"), Str("W1"), Str(category), Undefined, []);
    assert FormValid(w);
    assert SaveMessage(w) == "The new Widget was saved";
  }

  /** A product with id 7, name "Ab" and code "X" is refused on save whatever
      its category: the name is shorter than three characters. */
  lemma ShortNameScenario(s: State, category: Text)
    ensures var p := Product(7, Str("Ab"), Str("X"), category, Undefined, []);
      var t := Save(Retrieved(s, Some(p)), Succeeded);
      && t.calls == s.calls && t.messages == s.messages && t.navigations == s.navigations
      && t.errorMessage == Some(ValidationError)
      && t.dataIsValid.Some? && !t.dataIsValid.value[InfoTab]
  {
  }
}
