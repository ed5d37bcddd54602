/** The records of the hosted database, as the interfaces of src/lib/supabase.ts
    and the queries of the pages use them. Optional text columns are modelled
    as strings, with "" standing for null. */
module Inventory {

  /** The three stock labels the pages write and compare against. */
  const IN_STOCK := "In Stock"
  const LOW_STOCK := "Low Stock"
  const OUT_OF_STOCK := "Out of Stock"

  const ADMIN := "admin"

  /** A row of inventory_items. The status column is a plain string: the pages
      compare it with ===, and nothing but the writing code keeps it to the
      three labels. */
  datatype Item = Item(
    id: string,
    name: string,
    category: string,
    currentStock: int,
    minStock: int,
    unit: string,
    expireDate: string,
    status: string,
    location: string,
    dateUpdated: string,
    updatedAt: string,
    createdBy: string,
    updatedBy: string)

  /** A row of profiles; role is the only authorization input. */
  datatype Profile = Profile(id: string, email: string, role: string)

  /** The authenticated identity as the auth client reports it. */
  datatype User = User(id: string, email: string)

  /** What an insert or update of an inventory_items row answers: the id and
      timestamp the database assigned, or the error's message. */
  datatype WriteReply = Written(id: string, at: string) | WriteFailed(message: string)

  /** The toast notification a handler shows, if any. */
  datatype Toast = NoToast | ErrorToast(message: string) | SuccessToast(message: string)

  function NameOf(item: Item): string
  {
    item.name
  }

  function IdOf(item: Item): string
  {
    item.id
  }

  function Labels(): set<string>
  {
    {IN_STOCK, LOW_STOCK, OUT_OF_STOCK}
  }
}
