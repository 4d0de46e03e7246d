/** The clients page (`app/dashboard/clientes/page.tsx`): search, the per-client order
    count, removal and edit over the clients kept in `localStorage`. */
module ClientesPage {
  import opened Wrappers
  import opened Text
  import opened Lists
  import opened Records

  /** The search box: the lower-cased name contains the lower-cased filter, or the
      phone contains the filter as typed. */
  predicate ClientMatches(c: Cliente, filtro: string) {
    Contains(Lower(c.nombre), Lower(filtro)) || Contains(c.telefono, filtro)
  }

  /** `clientesFiltrados` */
  function FilterClients(cs: seq<Cliente>, filtro: string): (r: seq<Cliente>)
    ensures forall k :: 0 <= k < |r| ==> r[k] in cs && ClientMatches(r[k], filtro)
    ensures forall k :: 0 <= k < |cs| && ClientMatches(cs[k], filtro) ==> cs[k] in r
  {
    Filter(cs, (c: Cliente) => ClientMatches(c, filtro))
  }

  /** An empty search box shows every client. */
  lemma EmptyFilterKeepsAll(cs: seq<Cliente>)
    ensures FilterClients(cs, "") == cs
  {
    forall k | 0 <= k < |cs| ensures ClientMatches(cs[k], "") {
      ContainsEmpty(Lower(cs[k].nombre));
    }
    FilterKeepsAll(cs, (c: Cliente) => ClientMatches(c, ""));
  }

  /** The search keeps the stored order of the clients it shows. */
  lemma FilteredIsSubsequence(cs: seq<Cliente>, filtro: string)
    ensures Subsequence(FilterClients(cs, filtro), cs)
  {
    FilterIsSubsequence(cs, (c: Cliente) => ClientMatches(c, filtro));
  }

  /** `contarPedidosCliente(clienteId)`, which reads the orders from storage each time. */
  function CountClientOrders(s: Storage, clienteId: string): (n: nat)
    ensures n == |Positions(StoredOrders(s), (p: Pedido) => p.clienteId == clienteId)|
  {
    FilterLengthCountsPositions(StoredOrders(s), (p: Pedido) => p.clienteId == clienteId);
    |Filter(StoredOrders(s), (p: Pedido) => p.clienteId == clienteId)|
  }

  /** `eliminarCliente(id)`: the new list the page stores under `"clientes"`. */
  function RemoveClient(cs: seq<Cliente>, id: string): (r: seq<Cliente>)
    ensures forall k :: 0 <= k < |r| ==> r[k].id != id && r[k] in cs
    ensures forall k :: 0 <= k < |cs| && cs[k].id != id ==> cs[k] in r
  {
    Filter(cs, (c: Cliente) => c.id != id)
  }

  /** `eliminarCliente` writes the `"clientes"` key only. */
  function StoreAfterRemove(s: Storage, id: string): (r: Storage)
    ensures r.clientes == Some(RemoveClient(StoredClients(s), id))
    ensures r.user == s.user && r.productos == s.productos && r.pedidos == s.pedidos && r.others == s.others
  {
    s.(clientes := Some(RemoveClient(StoredClients(s), id)))
  }

  /** Removal drops exactly the clients with that id and keeps the rest in order. */
  lemma RemoveClientExact(cs: seq<Cliente>, id: string)
    ensures Subsequence(RemoveClient(cs, id), cs)
    ensures |RemoveClient(cs, id)| == |cs| - |Filter(cs, (c: Cliente) => c.id == id)|
  {
    var keep := (c: Cliente) => c.id != id;
    FilterIsSubsequence(cs, keep);
    ComplementaryFilters(cs, keep, (c: Cliente) => c.id == id);
  }

  /** Orders are not touched by a removal: even the removed client's orders stay,
      and every client's count is what it was. */
  lemma RemoveClientKeepsOrders(s: Storage, id: string, other: string)
    ensures StoredOrders(StoreAfterRemove(s, id)) == StoredOrders(s)
    ensures CountClientOrders(StoreAfterRemove(s, id), other) == CountClientOrders(s, other)
  {
  }

  /** `onSave` of the edit dialog: the entry with the selected id becomes the edited
      client, every other entry stays. */
  function ReplaceEditedClient(cs: seq<Cliente>, selectedId: string, edited: Cliente): (r: seq<Cliente>)
    ensures |r| == |cs|
    ensures forall k :: 0 <= k < |cs| ==> if cs[k].id == selectedId then r[k] == edited else r[k] == cs[k]
  {
    ReplaceWhere(cs, (c: Cliente) => c.id == selectedId, edited)
  }

  /** The dialog keeps the client's id, so saving the same edit twice changes nothing more. */
  lemma ReplaceEditedIdempotent(cs: seq<Cliente>, edited: Cliente)
    ensures ReplaceEditedClient(ReplaceEditedClient(cs, edited.id, edited), edited.id, edited)
         == ReplaceEditedClient(cs, edited.id, edited)
  {
  }
}
