/** Schema V2: every field of a repair order is personal, deterministic or semantic. */
module RoSchema {

  /** The classes the router consults; the last five say how a field is stored. */
  datatype Schema = Schema(
    pii: set<string>,
    det: set<string>,
    sem: set<string>,
    labor: set<string>,
    part: set<string>,
    ints: set<string>,
    numbers: set<string>,
    names: set<string>,
    lists: set<string>,
    addresses: set<string>)

  ghost predicate ValidSchema(s: Schema) {
    && s.pii !! s.det !! s.sem
    && s.labor !! s.part
    && s.labor + s.part <= s.det + s.sem
    && s.names !! s.lists !! s.addresses
    && s.pii == s.names + s.lists + s.addresses
    && s.ints !! s.numbers
    && s.ints + s.numbers <= s.det
  }

  const NAME_FIELDS: set<string> := {
    "CUSTOMER_FIRST_NAME", "CUSTOMER_LAST_NAME"
  }

  const LIST_FIELDS: set<string> := {
    "CUSTOMER_PHONE", "CUSTOMER_EMAIL", "VIN", "LICENSE_PLATE"
  }

  const ADDRESS_FIELDS: set<string> := {
    "CUSTOMER_ADDRESS_LINE1", "CUSTOMER_ADDRESS_CITY", "CUSTOMER_ADDRESS_STATE",
    "CUSTOMER_ADDRESS_POSTAL"
  }

  const PII_FIELDS: set<string> := NAME_FIELDS + LIST_FIELDS + ADDRESS_FIELDS

  /** Deterministic fields read with toInt. */
  const INT_FIELDS: set<string> := {
    "VEHICLE_YEAR", "ODOMETER_IN", "ODOMETER_OUT", "LABOR_LINE_NUMBER", "PART_LINE_NUMBER"
  }

  /** Deterministic fields read with toNumber. */
  const NUMBER_FIELDS: set<string> := {
    "LABOR_TOTAL", "PARTS_TOTAL", "SHOP_FEES", "ENVIRONMENTAL_FEES", "DISCOUNT_TOTAL", "TAX_TOTAL",
    "GRAND_TOTAL", "FLAT_RATE_HOURS", "ACTUAL_HOURS", "LABOR_RATE", "LABOR_EXTENDED_AMOUNT",
    "PART_QUANTITY", "PART_UNIT_PRICE", "PART_EXTENDED_PRICE"
  }

  /** The deterministic fields of the order and its customer, */
  const ORDER_FIELDS: set<string> := {
    "RO_NUMBER", "RO_STATUS", "OPEN_TIMESTAMP", "CLOSE_TIMESTAMP", "WRITEUP_TIMESTAMP",
    "PROMISED_TIMESTAMP", "ADVISOR_ID", "SERVICE_LANE", "DEPARTMENT_CODE", "WAITER_FLAG",
    "LOANER_FLAG", "WARRANTY_FLAG", "FLEET_FLAG", "INTERNAL_RO_FLAG", "CUSTOMER_TYPE",
    "PREFERRED_CONTACT_METHOD", "MARKETING_OPT_IN"
  }

  /** of the vehicle, */
  const VEHICLE_FIELDS: set<string> := {
    "VEHICLE_YEAR", "VEHICLE_MAKE", "VEHICLE_MODEL", "VEHICLE_TRIM", "VEHICLE_ENGINE",
    "VEHICLE_TRANSMISSION", "VEHICLE_DRIVETRAIN", "ODOMETER_IN", "ODOMETER_OUT", "VEHICLE_COLOR",
    "VEHICLE_PRODUCTION_DATE"
  }

  /** of the totals and the record, */
  const TOTAL_FIELDS: set<string> := {
    "LABOR_TOTAL", "PARTS_TOTAL", "SHOP_FEES", "ENVIRONMENTAL_FEES", "DISCOUNT_TOTAL", "TAX_TOTAL",
    "GRAND_TOTAL", "PAYMENT_METHOD", "INVOICE_NUMBER", "CREATED_BY_SYSTEM", "INGEST_TIMESTAMP",
    "TENANT_ID", "SOURCE_SYSTEM"
  }

  /** of labor lines, */
  const LABOR_DETERMINISTIC: set<string> := {
    "LABOR_LINE_NUMBER", "OP_CODE", "LABOR_TYPE", "SKILL_LEVEL", "FLAT_RATE_HOURS", "ACTUAL_HOURS",
    "LABOR_RATE", "LABOR_EXTENDED_AMOUNT", "TECHNICIAN_ID"
  }

  /** and of part lines. */
  const PART_DETERMINISTIC: set<string> := {
    "PART_LINE_NUMBER", "PART_NUMBER", "PART_QUANTITY", "PART_UNIT_PRICE", "PART_EXTENDED_PRICE",
    "PART_SOURCE", "BACKORDER_FLAG"
  }

  const DETERMINISTIC_FIELDS: set<string> :=
    ORDER_FIELDS + VEHICLE_FIELDS + TOTAL_FIELDS + LABOR_DETERMINISTIC + PART_DETERMINISTIC

  const LABOR_SEMANTIC: set<string> := {
    "OP_DESCRIPTION", "TECHNICIAN_NOTES"
  }

  const PART_SEMANTIC: set<string> := {
    "PART_DESCRIPTION"
  }

  const HEADER_SEMANTIC: set<string> := {
    "CUSTOMER_COMPLAINT", "ADDITIONAL_SYMPTOMS", "CUSTOMER_REQUESTS", "CAUSE", "CORRECTION",
    "ADVISOR_NOTES", "INTERNAL_COMMENTS", "QC_NOTES"
  }

  const SEMANTIC_FIELDS: set<string> := LABOR_SEMANTIC + PART_SEMANTIC + HEADER_SEMANTIC

  const LABOR_BASE_FIELDS: set<string> := LABOR_DETERMINISTIC + LABOR_SEMANTIC
  const PART_BASE_FIELDS: set<string> := PART_DETERMINISTIC + PART_SEMANTIC

  const V2 := Schema(PII_FIELDS, DETERMINISTIC_FIELDS, SEMANTIC_FIELDS, LABOR_BASE_FIELDS, PART_BASE_FIELDS,
                     INT_FIELDS, NUMBER_FIELDS, NAME_FIELDS, LIST_FIELDS, ADDRESS_FIELDS)

  lemma OrderFieldsNotPii()
    ensures ORDER_FIELDS !! PII_FIELDS
  {
  }

  lemma OrderFieldsNotSemantic()
    ensures ORDER_FIELDS !! SEMANTIC_FIELDS
  {
  }

  lemma VehicleFieldsNotPii()
    ensures VEHICLE_FIELDS !! PII_FIELDS
  {
  }

  lemma VehicleFieldsNotSemantic()
    ensures VEHICLE_FIELDS !! SEMANTIC_FIELDS
  {
  }

  lemma TotalFieldsNotPii()
    ensures TOTAL_FIELDS !! PII_FIELDS
  {
  }

  lemma TotalFieldsNotSemantic()
    ensures TOTAL_FIELDS !! SEMANTIC_FIELDS
  {
  }

  lemma LaborFieldsNotPii()
    ensures LABOR_DETERMINISTIC !! PII_FIELDS
  {
  }

  lemma LaborFieldsNotSemantic()
    ensures LABOR_DETERMINISTIC !! SEMANTIC_FIELDS
  {
  }

  lemma PartFieldsNotPii()
    ensures PART_DETERMINISTIC !! PII_FIELDS
  {
  }

  lemma PartFieldsNotSemantic()
    ensures PART_DETERMINISTIC !! SEMANTIC_FIELDS
  {
  }

  lemma PiiSemanticApart()
    ensures PII_FIELDS !! SEMANTIC_FIELDS
  {
  }

  lemma LineFieldsApart()
    ensures LABOR_BASE_FIELDS !! PART_BASE_FIELDS
  {
  }

  lemma PiiKindsApart()
    ensures NAME_FIELDS !! LIST_FIELDS !! ADDRESS_FIELDS
  {
  }

  lemma {:induction false} IntsAreNoNumbers()
    ensures INT_FIELDS !! NUMBER_FIELDS
  {
  }

  lemma {:induction false} NumberFields()
    ensures INT_FIELDS <= DETERMINISTIC_FIELDS && NUMBER_FIELDS <= DETERMINISTIC_FIELDS
  {
    assert INT_FIELDS <= VEHICLE_FIELDS + LABOR_DETERMINISTIC + PART_DETERMINISTIC;
    assert NUMBER_FIELDS <= TOTAL_FIELDS + LABOR_DETERMINISTIC + PART_DETERMINISTIC;
  }

  /** The three classes are disjoint, and every line item field is in one of them. */
  lemma {:induction false} V2IsValid()
    ensures ValidSchema(V2)
  {
    OrderFieldsNotPii();
    OrderFieldsNotSemantic();
    VehicleFieldsNotPii();
    VehicleFieldsNotSemantic();
    TotalFieldsNotPii();
    TotalFieldsNotSemantic();
    LaborFieldsNotPii();
    LaborFieldsNotSemantic();
    PartFieldsNotPii();
    PartFieldsNotSemantic();
    PiiSemanticApart();
    LineFieldsApart();
    PiiKindsApart();
    IntsAreNoNumbers();
    NumberFields();
  }
}
