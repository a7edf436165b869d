/** Logical data types, compute-engine element types and the result wrapper shared by the model. */
module Types {

  /** Success or failure; the failure carries the exception the source would throw. */
  datatype Result<+T, +E> = Ok(value: T) | Err(error: E)

  datatype Option<+T> = None | Some(value: T)

  /** The logical (query-language) data types that can reach the aggregation layer. */
  datatype DataType =
    | BOOLEAN | BYTE | SHORT | INTEGER | LONG | UNSIGNED_LONG
    | HALF_FLOAT | FLOAT | SCALED_FLOAT | DOUBLE
    | DATETIME | KEYWORD | TEXT | IP | VERSION
    | GEO_POINT | CARTESIAN_POINT | GEO_SHAPE | CARTESIAN_SHAPE
    | COUNTER_INTEGER | COUNTER_LONG | COUNTER_DOUBLE
    | NULL | UNSUPPORTED

  /** Whole or rational number types; the counter types are not numeric. */
  predicate IsNumeric(t: DataType) {
    || t == BYTE || t == SHORT || t == INTEGER || t == LONG || t == UNSIGNED_LONG
    || t == HALF_FLOAT || t == FLOAT || t == SCALED_FLOAT || t == DOUBLE
  }

  predicate IsString(t: DataType) {
    t == KEYWORD || t == TEXT
  }

  /** The element type of a column in the compute engine. */
  datatype ElementType = EBOOLEAN | EINT | ELONG | EFLOAT | EDOUBLE | ENULL | EBYTES_REF | EDOC | ECOMPOSITE | EUNKNOWN

  /** The name a logical type carries in index mappings. */
  function EsName(t: DataType): string {
    match t
    case BOOLEAN => "boolean"
    case BYTE => "byte"
    case SHORT => "short"
    case INTEGER => "integer"
    case LONG => "long"
    case UNSIGNED_LONG => "unsigned_long"
    case HALF_FLOAT => "half_float"
    case FLOAT => "float"
    case SCALED_FLOAT => "scaled_float"
    case DOUBLE => "double"
    case DATETIME => "date"
    case KEYWORD => "keyword"
    case TEXT => "text"
    case IP => "ip"
    case VERSION => "version"
    case GEO_POINT => "geo_point"
    case CARTESIAN_POINT => "cartesian_point"
    case GEO_SHAPE => "geo_shape"
    case CARTESIAN_SHAPE => "cartesian_shape"
    case COUNTER_INTEGER => "counter_integer"
    case COUNTER_LONG => "counter_long"
    case COUNTER_DOUBLE => "counter_double"
    case NULL => "null"
    case UNSUPPORTED => "unsupported"
  }

  /** Name lookup of a logical type; an unknown name gives UNSUPPORTED. */
  function FromEs(name: string): (t: DataType)
    ensures t != UNSUPPORTED ==> EsName(t) == name
  {
    if name == "boolean" then BOOLEAN
    else if name == "byte" then BYTE
    else if name == "short" then SHORT
    else if name == "integer" then INTEGER
    else if name == "long" then LONG
    else if name == "unsigned_long" then UNSIGNED_LONG
    else if name == "half_float" then HALF_FLOAT
    else if name == "float" then FLOAT
    else if name == "scaled_float" then SCALED_FLOAT
    else if name == "double" then DOUBLE
    else if name == "date" then DATETIME
    else if name == "keyword" then KEYWORD
    else if name == "text" then TEXT
    else if name == "ip" then IP
    else if name == "version" then VERSION
    else if name == "geo_point" then GEO_POINT
    else if name == "cartesian_point" then CARTESIAN_POINT
    else if name == "geo_shape" then GEO_SHAPE
    else if name == "cartesian_shape" then CARTESIAN_SHAPE
    else if name == "counter_integer" then COUNTER_INTEGER
    else if name == "counter_long" then COUNTER_LONG
    else if name == "counter_double" then COUNTER_DOUBLE
    else if name == "null" then NULL
    else UNSUPPORTED
  }

  /** Looking a type up by its own name gives the type back (proved four types at a time). */
  lemma FromEsEsName(t: DataType)
    ensures FromEs(EsName(t)) == t
  {
    if t == BOOLEAN || t == BYTE || t == SHORT || t == INTEGER {
      FromEsEsName1(t);
    } else if t == LONG || t == UNSIGNED_LONG || t == HALF_FLOAT || t == FLOAT {
      FromEsEsName2(t);
    } else if t == SCALED_FLOAT || t == DOUBLE || t == DATETIME || t == KEYWORD {
      FromEsEsName3(t);
    } else if t == TEXT || t == IP || t == VERSION || t == GEO_POINT {
      FromEsEsName4(t);
    } else if t == CARTESIAN_POINT || t == GEO_SHAPE || t == CARTESIAN_SHAPE || t == COUNTER_INTEGER {
      FromEsEsName5(t);
    } else {
      FromEsEsName6(t);
    }
  }

  lemma FromEsEsName1(t: DataType)
    requires t == BOOLEAN || t == BYTE || t == SHORT || t == INTEGER
    ensures FromEs(EsName(t)) == t
  {
    if t == BOOLEAN {} else if t == BYTE {} else if t == SHORT {} else {}
  }

  lemma FromEsEsName2(t: DataType)
    requires t == LONG || t == UNSIGNED_LONG || t == HALF_FLOAT || t == FLOAT
    ensures FromEs(EsName(t)) == t
  {
    if t == LONG {} else if t == UNSIGNED_LONG {} else if t == HALF_FLOAT {} else {}
  }

  lemma FromEsEsName3(t: DataType)
    requires t == SCALED_FLOAT || t == DOUBLE || t == DATETIME || t == KEYWORD
    ensures FromEs(EsName(t)) == t
  {
    if t == SCALED_FLOAT {} else if t == DOUBLE {} else if t == DATETIME {} else {}
  }

  lemma FromEsEsName4(t: DataType)
    requires t == TEXT || t == IP || t == VERSION || t == GEO_POINT
    ensures FromEs(EsName(t)) == t
  {
    if t == TEXT {} else if t == IP {} else if t == VERSION {} else {}
  }

  lemma FromEsEsName5(t: DataType)
    requires t == CARTESIAN_POINT || t == GEO_SHAPE || t == CARTESIAN_SHAPE || t == COUNTER_INTEGER
    ensures FromEs(EsName(t)) == t
  {
    if t == CARTESIAN_POINT {} else if t == GEO_SHAPE {} else if t == CARTESIAN_SHAPE {} else {}
  }

  lemma FromEsEsName6(t: DataType)
    requires t == COUNTER_LONG || t == COUNTER_DOUBLE || t == NULL || t == UNSUPPORTED
    ensures FromEs(EsName(t)) == t
  {
    if t == COUNTER_LONG {} else if t == COUNTER_DOUBLE {} else if t == NULL {} else { FromEsUnsupported(); }
  }

  /** "unsupported" is none of the known names, so the lookup falls through. */
  lemma FromEsUnsupported()
    ensures FromEs("unsupported") == UNSUPPORTED
  {
  }
}
