/**
 * A successor produced by the blocks-world generator (Agente.Sucesor, and the
 * identical top-level class Sucesor): the action, the state it leads to and
 * its step cost.
 */
module Sucesores {
  import opened Predicados
  import opened Acciones

  datatype Sucesor = Sucesor(accion: Accion, estado: Estado, costo: int)
}
