/** A request to move things between two places: the value that queues, checkpoints and the runtime bridge carry. */
module Transfers {
  import opened Prelude

  datatype Endpoint =
    | Cargo
    | Storage
    | Ship(ship: string)
    | Faction
    | FactionTag(tag: string)
    | Player(name: string)
    | Space(wreck: Option<string>)
    | Commission(commission: string)

  datatype TransferItem = TransferItem(id: string, quantity: u64)

  datatype Subject =
    | AllCargo
    | Credits(quantity: u64)
    | Item(id: string, itemQuantity: Option<u64>)
    | ShipSubject(ship: string)
    | ModuleSubject(moduleId: string)
    | Items(items: seq<TransferItem>)

  datatype Transfer = Transfer(subject: Subject, source: Endpoint, destination: Endpoint)
}
