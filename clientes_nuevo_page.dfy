/** The new-client form (`app/dashboard/clientes/nuevo/page.tsx`): `handleSubmit`
    appends the typed fields, with an id from `Date.now().toString()` given as a
    parameter, to the stored clients. */
module ClientesNuevoPage {
  import opened Wrappers
  import opened Records

  /** The form's three text fields. */
  datatype ClientForm = ClientForm(nombre: string, telefono: string, direccion: string)

  /** `{ id, ...formData }`: the fields exactly as typed, with no trimming or lower-casing. */
  function NewClient(form: ClientForm, id: string): (c: Cliente)
    ensures c.id == id && c.nombre == form.nombre && c.telefono == form.telefono && c.direccion == form.direccion
  {
    Cliente(id, form.nombre, form.telefono, form.direccion)
  }

  /** What `handleSubmit` leaves behind: the storage, and where the router goes. */
  datatype Submitted = Submitted(storage: Storage, navigateTo: string)

  /** `handleSubmit`: the stored clients (or `[]`) with the new one appended, written
      back under `"clientes"`; then the clients page. */
  function Submit(s: Storage, form: ClientForm, id: string): (r: Submitted)
    ensures r.storage.clientes == Some(StoredClients(s) + [NewClient(form, id)])
    ensures r.storage.user == s.user && r.storage.productos == s.productos
    ensures r.storage.pedidos == s.pedidos && r.storage.others == s.others
    ensures r.navigateTo == "/dashboard/clientes"
  {
    Submitted(s.(clientes := Some(StoredClients(s) + [NewClient(form, id)])), "/dashboard/clientes")
  }

  /** The list grows by one record at the end and the earlier ones keep their places. */
  lemma SubmitAppendsOne(s: Storage, form: ClientForm, id: string)
    ensures var after := StoredClients(Submit(s, form, id).storage);
      && |after| == |StoredClients(s)| + 1
      && after[..|StoredClients(s)|] == StoredClients(s)
      && after[|StoredClients(s)|] == NewClient(form, id)
  {
  }

  /** No duplicate check: the same form sent twice stores two clients of that name. */
  lemma SameNameTwice(s: Storage, form: ClientForm, id1: string, id2: string)
    ensures var after := StoredClients(Submit(Submit(s, form, id1).storage, form, id2).storage);
      && |after| == |StoredClients(s)| + 2
      && after[|after| - 2].nombre == form.nombre
      && after[|after| - 1].nombre == form.nombre
  {
  }
}
