/** The product: a name and a price, compared and hashed by both. */
module Products {
  import opened Wrappers
  import opened Names

  /** Prices are exact reals, so that sums of prices are exact. */
  datatype Product = Product(name: string, price: real)

  /** The error raised when a product is built with a malformed name. */
  datatype ValueError = ValueError(message: string)

  const IncorrectName: string := "Incorrect name of product"

  /** A product whose name is one or more letters followed by one or more digits. */
  ghost predicate ValidProduct(p: Product) {
    IsProductName(p.name)
  }

  /** Building a product: the name must match `[A-Za-z]+[0-9]+` in full, otherwise the
      construction fails with "Incorrect name of product". The price is not checked. */
  function NewProduct(name: string, price: real): (r: Result<Product, ValueError>)
    ensures r.Success? <==> IsProductName(name)
    ensures r.Success? ==> r.value.name == name && r.value.price == price && ValidProduct(r.value)
    ensures r.Failure? ==> r.error.message == IncorrectName
  {
    if MatchProductName(name) then Success(Product(name, price))
    else Failure(ValueError(IncorrectName))
  }

  /** `__eq__`: equal names and equal prices, which is exactly structural equality. */
  predicate Equals(p: Product, q: Product)
    ensures Equals(p, q) <==> p == q
  {
    p.name == q.name && p.price == q.price
  }

  /** `__hash__`: the hash of the pair (name, price) under the runtime's tuple hash,
      which is a parameter of the model. */
  function Hash(p: Product, tupleHash: ((string, real)) -> int): int {
    tupleHash((p.name, p.price))
  }

  /** Products that are equal have equal hashes, whatever the tuple hash is. */
  lemma EqualProductsHashEqual(p: Product, q: Product, tupleHash: ((string, real)) -> int)
    requires Equals(p, q)
    ensures Hash(p, tupleHash) == Hash(q, tupleHash)
  {
  }
}
