/** The product edit component as the object the page binds to. Its fields
    are the component's; the product service, the message service and the
    router are represented by ghost logs of what was asked of them, the
    browser's confirmation prompt by a boolean argument, and each subscribed
    request by an Outcome argument saying which callback ran. Every method
    is proved to leave the state that the matching function of EditForm
    gives. */
module ProductEdit {

  import opened Wrappers
  import opened Products
  import EditForm

  /** `Object.keys(m).every(d => m[d] === true)`: stops at the first entry
      that is not `true`. */
  method Every(m: map<string, bool>) returns (all: bool)
    ensures all <==> EditForm.AllTrue(m)
  {
    all := true;
    var keys := m.Keys;
    while all && keys != {}
      invariant keys <= m.Keys
      invariant all ==> forall k :: k in m && k !in keys ==> m[k]
      invariant !all ==> !EditForm.AllTrue(m)
      decreases keys
    {
      var d :| d in keys;
      all := m[d] == true;
      keys := keys - {d};
    }
  }

  class ProductEditComponent {
    var pageTitle: string
    var errorMessage: Option<string>
    var dataIsValid: Option<map<string, bool>>
    var currentProduct: ProductRef
    var originalProduct: ProductRef

    // requests issued to the product service
    ghost var calls: seq<Call>
    // messages posted to the message service
    ghost var messages: seq<string>
    // paths the router was asked to navigate to
    ghost var navigations: seq<string>

    /** The component and its collaborators' logs as one value. */
    ghost function Model(): EditForm.State
      reads this
    {
      EditForm.State(pageTitle, errorMessage, dataIsValid, currentProduct, originalProduct,
                     calls, messages, navigations)
    }

    ghost predicate Valid()
      reads this
    {
      EditForm.Inv(Model())
    }

    constructor ()
      ensures Valid()
      ensures Model() == EditForm.Initial()
    {
      pageTitle := EditForm.InitialTitle;
      errorMessage := None;
      dataIsValid := Some(map[]);
      currentProduct := NullRef;
      originalProduct := NullRef;
      calls, messages, navigations := [], [], [];
    }

    /** The `isDirty` getter. */
    function IsDirty(): (dirty: bool)
      reads this
      ensures dirty <==> EditForm.Dirty(Model())
    {
      originalProduct != currentProduct
    }

    /** The `product` setter. */
    method SetProduct(value: Option<Product>)
      requires Valid()
      modifies this`currentProduct, this`originalProduct
      ensures Valid()
      ensures Model() == EditForm.SetProduct(old(Model()), value)
    {
      currentProduct := Ref(value);
      originalProduct := Spread(value);
    }

    /** A form input writing into the working copy through two-way binding. */
    method Edit(edited: Product)
      requires Valid() && currentProduct.Record?
      modifies this`currentProduct
      ensures Valid()
      ensures Model() == EditForm.EditCopy(old(Model()), edited)
    {
      currentProduct := Record(edited);
    }

    method OnProductRetrieved(value: Option<Product>)
      requires Valid()
      modifies this`currentProduct, this`originalProduct, this`pageTitle
      ensures Valid()
      ensures Model() == EditForm.Retrieved(old(Model()), value)
    {
      SetProduct(value);
      if currentProduct.NullRef? {
        pageTitle := EditForm.NotFoundTitle;
      } else if currentProduct.product.id == 0 {
        pageTitle := EditForm.AddTitle;
      } else {
        pageTitle := EditForm.EditTitlePrefix + Render(currentProduct.product.productName);
      }
    }

    /** The callback `ngOnInit` subscribes to the route's resolved data. */
    method OnResolvedData(value: Option<Product>, error: Option<string>)
      requires Valid()
      modifies this`errorMessage, this`currentProduct, this`originalProduct, this`pageTitle
      ensures Valid()
      ensures Model() == EditForm.Resolved(old(Model()), value, error)
    {
      errorMessage := error;
      OnProductRetrieved(value);
    }

    method DeleteProduct(confirmed: bool, outcome: Outcome)
      requires Valid() && currentProduct.Record?
      modifies this
      ensures Valid()
      ensures Model() == EditForm.Delete(old(Model()), confirmed, outcome)
    {
      var p := currentProduct.product;
      if p.id == 0 {
        // never saved, so there is nothing to delete
        OnSaveComplete(Some(Render(p.productName) + " was deleted"));
      } else if confirmed {
        calls := calls + [DeleteCall(p.id)];
        match outcome
        case Succeeded =>
          OnSaveComplete(Some(Render(p.productName) + " was deleted"));
        case Failed(e) =>
          errorMessage := Some(e);
      }
    }

    method IsValid(path: Option<string>) returns (r: EditForm.Property)
      requires Valid() && currentProduct.Record?
      modifies this`dataIsValid
      ensures Valid()
      ensures Model() == EditForm.Validated(old(Model()))
      ensures r == EditForm.IsValidResult(currentProduct.product, path)
    {
      Validate();
      if path.Some? && path.value != "" {
        r := EditForm.Lookup(dataIsValid.value, path.value);
      } else {
        var all := Every(dataIsValid.value);
        r := EditForm.Flag(all);
      }
    }

    method Reset()
      modifies this`dataIsValid, this`currentProduct, this`originalProduct
      ensures Valid()
      ensures Model() == EditForm.Reset(old(Model()))
    {
      dataIsValid := None;
      currentProduct := NullRef;
      originalProduct := NullRef;
    }

    method SaveProduct(outcome: Outcome)
      requires Valid() && currentProduct.Record?
      modifies this
      ensures Valid()
      ensures Model() == EditForm.Save(old(Model()), outcome)
    {
      var valid := IsValid(None);
      if valid == EditForm.Flag(true) {
        var p := currentProduct.product;
        if p.id == 0 {
          calls := calls + [CreateCall(p)];
          match outcome
          case Succeeded =>
            OnSaveComplete(Some("The new " + Render(p.productName) + " was saved"));
          case Failed(e) =>
            errorMessage := Some(e);
        } else {
          calls := calls + [UpdateCall(p)];
          match outcome
          case Succeeded =>
            OnSaveComplete(Some("The updated " + Render(p.productName) + " was saved"));
          case Failed(e) =>
            errorMessage := Some(e);
        }
      } else {
        errorMessage := Some(EditForm.ValidationError);
      }
    }

    method OnSaveComplete(message: Option<string>)
      modifies this`messages, this`dataIsValid, this`currentProduct, this`originalProduct,
               this`navigations
      ensures Valid()
      ensures Model() == EditForm.SaveComplete(old(Model()), message)
    {
      if message.Some? && message.value != "" {
        messages := messages + [message.value];
      }
      Reset();
      navigations := navigations + [EditForm.ProductListPath];
    }

    method Validate()
      requires Valid() && currentProduct.Record?
      modifies this`dataIsValid
      ensures Valid()
      ensures Model() == EditForm.Validated(old(Model()))
    {
      dataIsValid := Some(map[]);
      var p := currentProduct.product;

      // 'info' tab
      if Truthy(p.productName) && |p.productName.chars| >= 3 && Truthy(p.productCode) {
        dataIsValid := Some(dataIsValid.value[EditForm.InfoTab := true]);
      } else {
        dataIsValid := Some(dataIsValid.value[EditForm.InfoTab := false]);
      }

      // 'tags' tab
      if Truthy(p.category) && |p.category.chars| >= 3 {
        dataIsValid := Some(dataIsValid.value[EditForm.TagsTab := true]);
      } else {
        dataIsValid := Some(dataIsValid.value[EditForm.TagsTab := false]);
      }
    }
  }
}
