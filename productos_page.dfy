/** The inventory page (`app/dashboard/productos/page.tsx`): list edits on the
    products kept in `localStorage`. Every edit returns the new list, which the page
    writes back whole under `"productos"`. */
module ProductosPage {
  import opened Text
  import opened Lists
  import opened Records

  /** `Math.max(0, n)` */
  function Max0(n: int): (m: int)
    ensures m >= 0 && m >= n
    ensures m == n || m == 0
  {
    if n < 0 then 0 else n
  }

  /** `ajustarStock(id, cambio)`: every product with that id moves by `cambio`, clamped
      at zero; the others, the length and the order stay as they were. */
  function AdjustStock(ps: seq<Producto>, id: string, cambio: int): (r: seq<Producto>)
    ensures |r| == |ps|
    ensures forall k :: 0 <= k < |ps| && ps[k].id != id ==> r[k] == ps[k]
    ensures forall k :: 0 <= k < |ps| && ps[k].id == id ==>
      r[k].id == id && r[k].nombre == ps[k].nombre && r[k].cantidad >= 0
      && (r[k].cantidad == ps[k].cantidad + cambio || (r[k].cantidad == 0 && ps[k].cantidad + cambio < 0))
  {
    seq(|ps|, k requires 0 <= k < |ps| =>
      if ps[k].id == id then ps[k].(cantidad := Max0(ps[k].cantidad + cambio)) else ps[k])
  }

  /** No quantity is negative. */
  predicate AllInStock(ps: seq<Producto>) {
    forall k :: 0 <= k < |ps| ==> ps[k].cantidad >= 0
  }

  /** Adjusting never makes a quantity negative. */
  lemma AdjustStockKeepsNonNegative(ps: seq<Producto>, id: string, cambio: int)
    requires AllInStock(ps)
    ensures AllInStock(AdjustStock(ps, id, cambio))
  {
  }

  /** The "+" button undone by the "−" button gives back the list. */
  lemma IncrementThenDecrement(ps: seq<Producto>, id: string)
    requires AllInStock(ps)
    ensures AdjustStock(AdjustStock(ps, id, 1), id, -1) == ps
  {
    var r := AdjustStock(AdjustStock(ps, id, 1), id, -1);
    forall k | 0 <= k < |ps| ensures r[k] == ps[k] {
      if ps[k].id == id {
        assert r[k].cantidad == ps[k].cantidad;
      }
    }
  }

  /** The "−" button is disabled at zero; pressing it there would change nothing. */
  lemma DecrementAtZeroChangesNothing(ps: seq<Producto>, id: string)
    requires forall k :: 0 <= k < |ps| && ps[k].id == id ==> ps[k].cantidad == 0
    ensures AdjustStock(ps, id, -1) == ps
  {
    var r := AdjustStock(ps, id, -1);
    forall k | 0 <= k < |ps| ensures r[k] == ps[k] {
      if ps[k].id == id {
        assert r[k].cantidad == 0;
      }
    }
  }

  /** `eliminarProducto(id)` */
  function RemoveProduct(ps: seq<Producto>, id: string): (r: seq<Producto>)
    ensures forall k :: 0 <= k < |r| ==> r[k].id != id && r[k] in ps
    ensures forall k :: 0 <= k < |ps| && ps[k].id != id ==> ps[k] in r
  {
    Filter(ps, (p: Producto) => p.id != id)
  }

  /** Removal drops exactly the products with that id and keeps the rest in order. */
  lemma RemoveProductExact(ps: seq<Producto>, id: string)
    ensures Subsequence(RemoveProduct(ps, id), ps)
    ensures |RemoveProduct(ps, id)| == |ps| - |Filter(ps, (p: Producto) => p.id == id)|
  {
    var keep := (p: Producto) => p.id != id;
    FilterIsSubsequence(ps, keep);
    ComplementaryFilters(ps, keep, (p: Producto) => p.id == id);
  }

  /** The search box: a product matches when its lower-cased name contains the
      lower-cased filter. */
  predicate NameMatches(p: Producto, filtro: string) {
    Contains(Lower(p.nombre), Lower(filtro))
  }

  /** `productosFiltrados` */
  function FilterProducts(ps: seq<Producto>, filtro: string): (r: seq<Producto>)
    ensures forall k :: 0 <= k < |r| ==> r[k] in ps && NameMatches(r[k], filtro)
    ensures forall k :: 0 <= k < |ps| && NameMatches(ps[k], filtro) ==> ps[k] in r
  {
    Filter(ps, p => NameMatches(p, filtro))
  }

  /** An empty search box shows every product. */
  lemma EmptyFilterKeepsAll(ps: seq<Producto>)
    ensures FilterProducts(ps, "") == ps
  {
    forall k | 0 <= k < |ps| ensures NameMatches(ps[k], "") {
      ContainsEmpty(Lower(ps[k].nombre));
    }
    FilterKeepsAll(ps, p => NameMatches(p, ""));
  }

  /** The search ignores the case of what is typed. */
  lemma FilterIgnoresCase(ps: seq<Producto>, filtro: string)
    ensures FilterProducts(ps, Lower(filtro)) == FilterProducts(ps, filtro)
  {
    LowerIdempotent(filtro);
    FilterExtensional(ps, p => NameMatches(p, Lower(filtro)), p => NameMatches(p, filtro));
  }

  /** The three stock badges of `getEstadoBadge`. */
  datatype Badge = Disponible | PocoStock | Agotado {
    /** How good the badge is: more is better. */
    function Rank(): (n: int)
      ensures 0 <= n <= 2
    {
      match this
      case Agotado => 0
      case PocoStock => 1
      case Disponible => 2
    }
  }

  /** `getEstadoBadge(cantidad)` */
  function StockBadge(cantidad: int): (b: Badge)
    ensures b == Disponible <==> cantidad > 10
    ensures b == PocoStock <==> 1 <= cantidad <= 10
    ensures b == Agotado <==> cantidad <= 0
  {
    if cantidad > 10 then Disponible else if cantidad > 0 then PocoStock else Agotado
  }

  /** More stock never shows a worse badge. */
  lemma BadgeMonotone(a: int, b: int)
    requires a <= b
    ensures StockBadge(a).Rank() <= StockBadge(b).Rank()
  {
  }

  /** `onSave` of the edit dialog: the entry with the selected id becomes the edited
      product, every other entry stays. */
  function ReplaceEdited(ps: seq<Producto>, selectedId: string, edited: Producto): (r: seq<Producto>)
    ensures |r| == |ps|
    ensures forall k :: 0 <= k < |ps| ==> if ps[k].id == selectedId then r[k] == edited else r[k] == ps[k]
  {
    ReplaceWhere(ps, (p: Producto) => p.id == selectedId, edited)
  }

  /** The dialog keeps the product's id, so saving the same edit twice changes nothing more. */
  lemma ReplaceEditedIdempotent(ps: seq<Producto>, edited: Producto)
    ensures ReplaceEdited(ReplaceEdited(ps, edited.id, edited), edited.id, edited)
         == ReplaceEdited(ps, edited.id, edited)
  {
  }
}
