/** The shapes of the two relational tables the assistant reads: `cars` and
    `knowledge_chunks` (app/db/models.py). */
module Models {

  import opened Common

  /** A value kept in the JSON `features` column of a car. */
  datatype Feature = IntFeature(number: int) | TextFeature(text: string) | BoolFeature(flag: bool)

  /** The `features` dict, as its key/value pairs in insertion order. */
  type Features = seq<(string, Feature)>

  /** Every column of a `cars` row except its autoincrement id. `price_mxn` is an
      exact decimal, so it is a real here. */
  datatype CarRecord = CarRecord(
    externalId: Option<int>,
    make: string,
    model: string,
    year: int,
    priceMxn: real,
    city: string,
    mileageKm: Option<int>,
    transmission: Option<string>,
    fuel: Option<string>,
    bodyType: Option<string>,
    features: Option<Features>)

  /** A stored `cars` row: the id the database assigned and the columns. */
  datatype Car = Car(id: int, rec: CarRecord)

  /** A stored `knowledge_chunks` row. */
  datatype KnowledgeChunk = KnowledgeChunk(id: int, source: string, title: Option<string>, content: string)
}
