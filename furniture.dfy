/** The catalog entry type of MVVM/Model/Furniture.swift. */
module Furnishing {

  /** Stands for the `UUID` every `Furniture` value draws when it is created. */
  type Uuid = nat

  /**
   * One placeable item: its identity, the name shown to the user and the name of
   * the USDZ model asset to load. The thumbnail image is not modelled. Equality is
   * field-wise, as Swift synthesises `Equatable`, so two items with distinct ids differ.
   */
  datatype Furniture = Furniture(id: Uuid, name: string, modelName: string)
}
