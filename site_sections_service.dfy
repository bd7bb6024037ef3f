/** `SiteSectionsService`: the table of named content zones, keyed by id, with unique titles. */
module SiteSectionsService {
  import opened Wrappers
  import opened Exceptions
  import opened PrismaModels

  datatype CreateSiteSectionDto = CreateSiteSectionDto(title: string, description: string)

  /** The update data: each present field is written as given. */
  datatype SiteSectionPatch = SiteSectionPatch(title: Option<string>, description: Option<string>)

  function NotFoundMessage(id: string): string {
    "Site section with ID " + id + " not found"
  }

  predicate TitleTaken(sections: map<string, SiteSection>, title: string) {
    exists id :: id in sections && sections[id].title == title
  }

  predicate TitleTakenByOther(sections: map<string, SiteSection>, id: string, title: string) {
    exists other :: other in sections && other != id && sections[other].title == title
  }

  /** `findAll`: every section. */
  function FindAll(sections: map<string, SiteSection>): (r: set<SiteSection>)
    ensures forall s :: s in r <==> exists id :: id in sections && sections[id] == s
  {
    sections.Values
  }

  /** `findOne`: the section stored under `id`, or NotFound. */
  function FindOne(sections: map<string, SiteSection>, id: string): (r: Result<SiteSection, Exception>)
    ensures r.Ok? <==> id in sections
    ensures r.Ok? ==> r.value == sections[id]
    ensures r.Err? ==> r.error == NotFound("Site section with ID " + id + " not found")
  {
    if id in sections then Ok(sections[id]) else Err(NotFound(NotFoundMessage(id)))
  }

  /** `prisma.siteSection.findUnique({ where: { title } })`. */
  function FindByTitle(sections: map<string, SiteSection>, title: string): (r: Option<SiteSection>)
    requires UniqueTitles(sections)
    ensures r.Some? <==> TitleTaken(sections, title)
    ensures r.Some? ==> r.value.title == title && exists id :: id in sections && sections[id] == r.value
    ensures r.Some? && SectionsKeyed(sections) ==> r.value.id in sections && sections[r.value.id] == r.value
  {
    if TitleTaken(sections, title) then
      var id :| id in sections && sections[id].title == title;
      Some(sections[id])
    else None
  }

  /** The fields a patch names are replaced; the others are kept. */
  function ApplyPatch(section: SiteSection, patch: SiteSectionPatch): (r: SiteSection)
    ensures r.id == section.id
    ensures r.title == patch.title.GetOr(section.title)
    ensures r.description == patch.description.GetOr(section.description)
  {
    SiteSection(section.id, patch.title.GetOr(section.title), patch.description.GetOr(section.description))
  }

  class SiteSectionsService {
    var sections: map<string, SiteSection>

    ghost predicate Valid()
      reads this
    {
      SectionsKeyed(sections) && UniqueTitles(sections)
    }

    constructor ()
      ensures Valid() && sections == map[]
    {
      sections := map[];
    }

    /**
     * `create`: inserts the record under the id the store assigns (`newId`).  A clash on the id
     * or on the unique title is the store's P2002, which this service does not translate.
     */
    method Create(dto: CreateSiteSectionDto, newId: string) returns (r: Result<SiteSection, Exception>)
      requires Valid()
      modifies this
      ensures Valid()
      ensures newId in old(sections) || TitleTaken(old(sections), dto.title) ==>
                r == Err(StoreError("P2002")) && sections == old(sections)
      ensures !(newId in old(sections) || TitleTaken(old(sections), dto.title)) ==>
                r == Ok(SiteSection(newId, dto.title, dto.description)) && sections == old(sections)[newId := r.value]
    {
      if newId in sections || TitleTaken(sections, dto.title) {
        r := Err(StoreError("P2002"));
      } else {
        var record := SiteSection(newId, dto.title, dto.description);
        sections := sections[newId := record];
        r := Ok(record);
      }
    }

    /**
     * `update`: a missing id is NotFound before any write; otherwise the named fields change,
     * unless the new title belongs to another section (the store's P2002).
     */
    method Update(id: string, patch: SiteSectionPatch) returns (r: Result<SiteSection, Exception>)
      requires Valid()
      modifies this
      ensures Valid()
      ensures id !in old(sections) ==> r == Err(NotFound("Site section with ID " + id + " not found")) && sections == old(sections)
      ensures id in old(sections) && patch.title.Some? && TitleTakenByOther(old(sections), id, patch.title.value) ==>
                r == Err(StoreError("P2002")) && sections == old(sections)
      ensures id in old(sections) && !(patch.title.Some? && TitleTakenByOther(old(sections), id, patch.title.value)) ==>
                r == Ok(ApplyPatch(old(sections)[id], patch)) && sections == old(sections)[id := r.value]
    {
      var found := FindOne(sections, id);
      if found.Err? {
        r := Err(found.error);
      } else if patch.title.Some? && TitleTakenByOther(sections, id, patch.title.value) {
        r := Err(StoreError("P2002"));
      } else {
        var updated := ApplyPatch(found.value, patch);
        sections := sections[id := updated];
        r := Ok(updated);
      }
    }

    /** `remove`: a missing id is NotFound and deletes nothing; otherwise the record is removed and returned. */
    method Remove(id: string) returns (r: Result<SiteSection, Exception>)
      requires Valid()
      modifies this
      ensures Valid()
      ensures id !in old(sections) ==> r == Err(NotFound("Site section with ID " + id + " not found")) && sections == old(sections)
      ensures id in old(sections) ==> r == Ok(old(sections)[id]) && sections == old(sections) - {id}
    {
      var found := FindOne(sections, id);
      if found.Err? {
        r := Err(found.error);
      } else {
        sections := sections - {id};
        r := Ok(found.value);
      }
    }
  }
}
