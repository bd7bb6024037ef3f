/**
 * `SettingsService`: key/value content entries, each naming the site section it belongs to by
 * title and by id.  It reads the section table and changes only the setting table.
 */
module SettingsService {
  import opened Wrappers
  import opened Exceptions
  import opened PrismaModels
  import Sections = SiteSectionsService

  datatype CreateSettingDto = CreateSettingDto(sectionTitle: string, key: string, value: string)

  /** The update data: each present field is written as given. */
  datatype SettingPatch = SettingPatch(sectionTitle: Option<string>, key: Option<string>, value: Option<string>)

  function NotFoundMessage(id: string): string {
    "Setting with ID " + id + " not found"
  }

  function SectionMissingMessage(title: string): string {
    "Site section with title " + title + " not found"
  }

  /** `findAll`: every setting. */
  function FindAll(settings: map<string, Setting>): (r: set<Setting>)
    ensures forall s :: s in r <==> exists id :: id in settings && settings[id] == s
  {
    settings.Values
  }

  /** `findOne`: the setting stored under `id`, or NotFound. */
  function FindOne(settings: map<string, Setting>, id: string): (r: Result<Setting, Exception>)
    ensures r.Ok? <==> id in settings
    ensures r.Ok? ==> r.value == settings[id]
    ensures r.Err? ==> r.error == NotFound("Setting with ID " + id + " not found")
  {
    if id in settings then Ok(settings[id]) else Err(NotFound(NotFoundMessage(id)))
  }

  /** `findBySection`: exactly the settings whose `sectionTitle` is the argument. */
  function FindBySection(settings: map<string, Setting>, sectionTitle: string): (r: set<Setting>)
    ensures forall s :: s in r <==> (exists id :: id in settings && settings[id] == s) && s.sectionTitle == sectionTitle
  {
    set s | s in settings.Values && s.sectionTitle == sectionTitle
  }

  /** The fields a patch names are replaced; `sectionId` is never touched. */
  function ApplyPatch(setting: Setting, patch: SettingPatch): (r: Setting)
    ensures r.id == setting.id && r.sectionId == setting.sectionId
    ensures r.sectionTitle == patch.sectionTitle.GetOr(setting.sectionTitle)
    ensures r.key == patch.key.GetOr(setting.key)
    ensures r.value == patch.value.GetOr(setting.value)
  {
    Setting(setting.id, patch.sectionTitle.GetOr(setting.sectionTitle), patch.key.GetOr(setting.key),
            patch.value.GetOr(setting.value), setting.sectionId)
  }

  /** `if (updateSettingDto.sectionTitle)`: only a present, non-empty title is checked. */
  predicate ChecksSectionTitle(patch: SettingPatch) {
    patch.sectionTitle.Some? && patch.sectionTitle.value != ""
  }

  class SettingsService {
    var settings: map<string, Setting>
    const siteSections: Sections.SiteSectionsService

    ghost predicate Valid()
      reads this, siteSections
    {
      SettingsKeyed(settings) && siteSections.Valid()
    }

    constructor (siteSections: Sections.SiteSectionsService)
      requires siteSections.Valid()
      ensures Valid() && settings == map[] && this.siteSections == siteSections
    {
      settings := map[];
      this.siteSections := siteSections;
    }

    /**
     * `create`: an unknown section title is NotFound and creates nothing; otherwise the setting
     * is stored with `sectionId` set to the id of the section with that title.
     */
    method Create(dto: CreateSettingDto, newId: string) returns (r: Result<Setting, Exception>)
      requires Valid()
      modifies this
      ensures Valid()
      ensures !Sections.TitleTaken(siteSections.sections, dto.sectionTitle) ==>
                r == Err(NotFound(SectionMissingMessage(dto.sectionTitle))) && settings == old(settings)
      ensures Sections.TitleTaken(siteSections.sections, dto.sectionTitle) && newId in old(settings) ==>
                r == Err(StoreError("P2002")) && settings == old(settings)
      ensures Sections.TitleTaken(siteSections.sections, dto.sectionTitle) && newId !in old(settings) ==>
                && r.Ok?
                && r.value.id == newId && r.value.sectionTitle == dto.sectionTitle
                && r.value.key == dto.key && r.value.value == dto.value
                && r.value.sectionId in siteSections.sections
                && siteSections.sections[r.value.sectionId].title == dto.sectionTitle
                && settings == old(settings)[newId := r.value]
    {
      var section := Sections.FindByTitle(siteSections.sections, dto.sectionTitle);
      if section.None? {
        r := Err(NotFound(SectionMissingMessage(dto.sectionTitle)));
      } else if newId in settings {
        r := Err(StoreError("P2002"));
      } else {
        var record := Setting(newId, dto.sectionTitle, dto.key, dto.value, section.value.id);
        settings := settings[newId := record];
        r := Ok(record);
      }
    }

    /**
     * `update`: a missing id is NotFound before anything else; a non-empty new section title
     * that names no section is NotFound and writes nothing; otherwise the named fields change
     * and `sectionId` keeps pointing where it did.
     */
    method Update(id: string, patch: SettingPatch) returns (r: Result<Setting, Exception>)
      requires Valid()
      modifies this
      ensures Valid()
      ensures id !in old(settings) ==> r == Err(NotFound("Setting with ID " + id + " not found")) && settings == old(settings)
      ensures id in old(settings) && ChecksSectionTitle(patch) && !Sections.TitleTaken(siteSections.sections, patch.sectionTitle.value) ==>
                r == Err(NotFound(SectionMissingMessage(patch.sectionTitle.value))) && settings == old(settings)
      ensures id in old(settings) && !(ChecksSectionTitle(patch) && !Sections.TitleTaken(siteSections.sections, patch.sectionTitle.value)) ==>
                && r == Ok(ApplyPatch(old(settings)[id], patch))
                && r.value.sectionId == old(settings)[id].sectionId
                && settings == old(settings)[id := r.value]
    {
      var found := FindOne(settings, id);
      if found.Err? {
        r := Err(found.error);
        return;
      }
      if ChecksSectionTitle(patch) {
        var section := Sections.FindByTitle(siteSections.sections, patch.sectionTitle.value);
        if section.None? {
          r := Err(NotFound(SectionMissingMessage(patch.sectionTitle.value)));
          return;
        }
      }
      var updated := ApplyPatch(found.value, patch);
      settings := settings[id := updated];
      r := Ok(updated);
    }

    /** `remove`: a missing id is NotFound; an existing record is deleted and returned. */
    method Remove(id: string) returns (r: Result<Setting, Exception>)
      requires Valid()
      modifies this
      ensures Valid()
      ensures id !in old(settings) ==> r == Err(NotFound("Setting with ID " + id + " not found")) && settings == old(settings)
      ensures id in old(settings) ==> r == Ok(old(settings)[id]) && settings == old(settings) - {id}
    {
      var found := FindOne(settings, id);
      if found.Err? {
        r := Err(found.error);
      } else {
        settings := settings - {id};
        r := Ok(found.value);
      }
    }
  }

  /**
   * Re-titling a setting leaves its `sectionId` on the old section: once the new title names a
   * different section, the two references disagree.
   */
  lemma RetitleKeepsOldSection(sections: map<string, SiteSection>, setting: Setting, newTitle: string)
    requires SectionsKeyed(sections) && UniqueTitles(sections)
    requires setting.sectionId in sections && sections[setting.sectionId].title == setting.sectionTitle
    requires newTitle != setting.sectionTitle && Sections.TitleTaken(sections, newTitle)
    ensures var s' := ApplyPatch(setting, SettingPatch(Some(newTitle), None, None));
            s'.sectionId == setting.sectionId && sections[s'.sectionId].title != s'.sectionTitle
  {
  }
}
