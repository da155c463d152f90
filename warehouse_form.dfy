/** The product list of the warehouse form: each product is a name and its
    monthly stock series. `addProduct` appends a blank product, `removeProduct`
    is `Lists.RemoveAt`, and `updateProduct` copies the list shallowly and
    assigns a field of the product object itself. */
module WarehouseForm {
  import opened Wrappers
  import opened MonthlySeries

  /** One `{ product, monthlyData }` record of the form. */
  class ProductEntry {
    var product: string
    var monthlyData: seq<MonthEntry>

    constructor (product: string, monthlyData: seq<MonthEntry>)
      ensures this.product == product && this.monthlyData == monthlyData
    {
      this.product := product;
      this.monthlyData := monthlyData;
    }
  }

  /** `addProduct`: the list followed by a new product with an empty name and
      no months; the existing products are the same objects. */
  method AddProduct(products: seq<ProductEntry>) returns (r: seq<ProductEntry>)
    ensures |r| == |products| + 1 && r[..|products|] == products
    ensures fresh(r[|products|])
    ensures r[|products|].product == "" && r[|products|].monthlyData == []
  {
    var entry := new ProductEntry("", []);
    r := products + [entry];
    assert r[..|products|] == products;
  }

  /** The two fields `updateProduct` can set. */
  datatype ProductEdit = Rename(name: string) | ReplaceSeries(series: seq<MonthEntry>)

  /** `updateProduct(index, field, value)`: the same product objects, with the
      one at `index` changed in that one field. An index with no product
      throws: None. */
  method UpdateProduct(products: seq<ProductEntry>, index: int, edit: ProductEdit)
    returns (r: Option<seq<ProductEntry>>)
    modifies if 0 <= index < |products| then {products[index]} else {}
    ensures r.Some? <==> 0 <= index < |products|
    ensures r.Some? ==> r.value == products
    ensures r.Some? && edit.Rename? ==>
              products[index].product == edit.name &&
              products[index].monthlyData == old(products[index].monthlyData)
    ensures r.Some? && edit.ReplaceSeries? ==>
              products[index].monthlyData == edit.series &&
              products[index].product == old(products[index].product)
  {
    if !(0 <= index < |products|) {
      return None;
    }
    var updated := products;
    match edit {
      case Rename(name) =>
        updated[index].product := name;
      case ReplaceSeries(series) =>
        updated[index].monthlyData := series;
    }
    r := Some(updated);
  }
}
