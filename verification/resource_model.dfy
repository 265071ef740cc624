/** The bookable resource of the catalogue, its data-transfer record, and the
    record's bean-validation rules. */
module ResourceModel {
  import opened Wrappers
  import opened Text
  import opened Decimals

  /** The resource kinds the catalogue offers. */
  datatype ResourceType = MEETING_ROOM | CONFERENCE_HALL | EQUIPMENT | VEHICLE | WORKSPACE | OTHER

  /** A stored resource. The service copies fields from the request without
      checking them, so every copied field may be null; `available` never
      is, since creation defaults it. */
  datatype Resource = Resource(
    id: int,
    name: Option<string>,
    description: Option<string>,
    resourceType: Option<ResourceType>,
    pricePerHour: Option<Decimal>,
    capacity: Option<int>,
    available: bool,
    createdAt: Option<int>,
    updatedAt: Option<int>)

  /** The resource record exchanged with clients; every field may be null. */
  datatype ResourceDTO = ResourceDTO(
    id: Option<int>,
    name: Option<string>,
    description: Option<string>,
    resourceType: Option<ResourceType>,
    pricePerHour: Option<Decimal>,
    capacity: Option<int>,
    available: Option<bool>,
    createdAt: Option<int>,
    updatedAt: Option<int>)

  /** `@NotBlank` on the name, `@NotNull` on the type, and `@NotNull
      @Positive` on the price and on the capacity. */
  predicate IsValidResource(dto: ResourceDTO) {
    && dto.name.Some? && !IsBlank(dto.name.value)
    && dto.resourceType.Some?
    && dto.pricePerHour.Some? && IsPositive(dto.pricePerHour.value)
    && dto.capacity.Some? && dto.capacity.value > 0
  }

  /** The record a service returns for a stored resource. */
  function ToDTO(r: Resource): (d: ResourceDTO)
    ensures d.available == Some(r.available)
  {
    ResourceDTO(Some(r.id), r.name, r.description, r.resourceType, r.pricePerHour, r.capacity,
                Some(r.available), r.createdAt, r.updatedAt)
  }

  /** The returned record mirrors the entity field for field. */
  lemma ToDTOInjective(a: Resource, b: Resource)
    ensures ToDTO(a) == ToDTO(b) <==> a == b
  {
  }

  /** Validation reads only the name, type, price and capacity: the id, the
      description, the availability flag and the timestamps are free. */
  lemma ValidationIgnoresOtherFields(dto: ResourceDTO, id: Option<int>, description: Option<string>,
                                     available: Option<bool>, createdAt: Option<int>, updatedAt: Option<int>)
    ensures IsValidResource(dto) == IsValidResource(dto.(id := id, description := description, available := available,
                                                         createdAt := createdAt, updatedAt := updatedAt))
  {
  }

  /** A name of spaces and control characters is blank and refused; one
      with any other character passes, surrounding spaces and all. */
  lemma BlankNamesAreRefused(dto: ResourceDTO)
    requires dto.resourceType.Some? && dto.pricePerHour.Some? && IsPositive(dto.pricePerHour.value)
    requires dto.capacity.Some? && dto.capacity.value > 0
    ensures dto.name == Some(" \t ") ==> !IsValidResource(dto)
    ensures dto.name == Some("") ==> !IsValidResource(dto)
    ensures dto.name == Some(" a ") ==> IsValidResource(dto)
  {
    if dto.name == Some(" a ") {
      assert !IsTrimmable(dto.name.value[1]);
    }
  }

  /** A zero or negative price, or a zero or negative capacity, is refused. */
  lemma NonPositiveAmountsAreRefused(dto: ResourceDTO)
    requires (dto.pricePerHour.Some? && Value(dto.pricePerHour.value) <= 0.0)
             || (dto.capacity.Some? && dto.capacity.value <= 0)
    ensures !IsValidResource(dto)
  {
    if dto.pricePerHour.Some? {
      PositiveMeansAboveZero(dto.pricePerHour.value);
    }
  }
}
