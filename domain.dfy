/** Values shared by the server routes and the client pages. */
module Domain {

  /** The tenant: the `user_id` column of every table. */
  type UserId = int

  /** What `Number(x)` yields for a request field: an integer, or NaN/Infinity.
      Fractional numbers are not distinguished from integers in this model. */
  datatype JsNumber = Finite(value: int) | NonFinite {
    /** `Number.isFinite(n) && n > 0` */
    predicate IsPositive() { Finite? && value > 0 }
  }

  /** `EstadoPedido`, the three states an order can be in. */
  datatype Estado = Pendiente | Entregado | Cancelado {
    /** The string the state is stored and compared as. */
    function Name(): (s: string)
      ensures |s| > 0
    {
      match this
      case Pendiente => "Pendiente"
      case Entregado => "Entregado"
      case Cancelado => "Cancelado"
    }
  }

  /** States are told apart by their stored names. */
  lemma NameInjective(a: Estado, b: Estado)
    ensures a.Name() == b.Name() <==> a == b
  {
    if a != b {
      assert a.Name()[0] != b.Name()[0];
    }
  }
}
