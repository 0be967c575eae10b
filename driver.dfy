/**
 * Driver selection in `VichUploaderExtension::load`: the configured `db_driver`,
 * lower-cased, must be a key of the tag map; it then picks the adapter class and
 * the tag put on the upload listener.
 */
module Driver {
  import opened Wrappers
  import opened PhpStrings
  import opened Errors

  const Orm := "orm"
  const MongoDb := "mongodb"

  const OrmSubscriberTag := "doctrine.event_subscriber"
  const MongoDbSubscriberTag := "doctrine_mongodb.odm.event_subscriber"
  /** The MongoDB subscriber tag used before Symfony 2.1. */
  const LegacyMongoDbSubscriberTag := "doctrine.odm.mongodb.event_subscriber"

  /** `$tagMap` as the class declares it. */
  const InitialTagMap: map<string, string> := map[Orm := OrmSubscriberTag, MongoDb := MongoDbSubscriberTag]

  /** `$adapterMap`. */
  const AdapterMap: map<string, string> := map[
    Orm := "Vich\\UploaderBundle\\Adapter\\ORM\\DoctrineORMAdapter",
    MongoDb := "Vich\\UploaderBundle\\Adapter\\ODM\\MongoDB\\MongoDBAdapter"]

  /** `Kernel::VERSION_ID`, None when the constant is not defined (Symfony before 2.1). */
  predicate IsLegacyKernel(versionId: Option<int>) {
    versionId.None? || versionId.value < 20100
  }

  /** The tag map after the version test at the start of `load`. */
  function TagMapFor(tagMap: map<string, string>, versionId: Option<int>): (r: map<string, string>)
    ensures forall d :: d != MongoDb ==> (d in r <==> d in tagMap)
    ensures forall d :: d in tagMap && d != MongoDb ==> r[d] == tagMap[d]
    ensures IsLegacyKernel(versionId) ==> MongoDb in r && r[MongoDb] == LegacyMongoDbSubscriberTag
    ensures !IsLegacyKernel(versionId) ==> r == tagMap
  {
    if IsLegacyKernel(versionId) then tagMap[MongoDb := LegacyMongoDbSubscriberTag] else tagMap
  }

  /** `strtolower($config['db_driver'])` checked against the tag map's keys. */
  function ValidateDriver(dbDriver: string, known: set<string>): (r: Result<string, Error>)
    ensures r.Ok? <==> ToLower(dbDriver) in known
    ensures r.Ok? ==> r.value == ToLower(dbDriver)
    ensures r.Err? ==> r.error == InvalidDriver(ToLower(dbDriver))
  {
    var driver := ToLower(dbDriver);
    if driver in known then Ok(driver) else Err(InvalidDriver(driver))
  }

  /** What a validated driver selects: the adapter class and the listener's tag. */
  datatype DriverSetup = DriverSetup(driver: string, adapterClass: string, subscriberTag: string)

  function SelectDriver(dbDriver: string, tagMap: map<string, string>): (r: Result<DriverSetup, Error>)
    requires tagMap.Keys == AdapterMap.Keys
    ensures r.Ok? <==> ToLower(dbDriver) in tagMap
    ensures r.Ok? ==> r.value.driver == ToLower(dbDriver)
    ensures r.Err? ==> r.error == InvalidDriver(ToLower(dbDriver))
    ensures r.Ok? ==>
      && r.value.driver in tagMap
      && r.value.adapterClass == AdapterMap[r.value.driver]
      && r.value.subscriberTag == tagMap[r.value.driver]
  {
    match ValidateDriver(dbDriver, tagMap.Keys)
    case Err(e) => Err(e)
    case Ok(d) => Ok(DriverSetup(d, AdapterMap[d], tagMap[d]))
  }

  /**
   * A `db_driver` is accepted exactly when it equals `orm` or `mongodb` ignoring
   * case; otherwise the error names the lower-cased value.
   */
  lemma DriverAccepted(dbDriver: string)
    ensures ValidateDriver(dbDriver, InitialTagMap.Keys).Ok?
        <==> EqualsIgnoreCase(dbDriver, Orm) || EqualsIgnoreCase(dbDriver, MongoDb)
    ensures ValidateDriver(dbDriver, InitialTagMap.Keys).Err?
        ==> ValidateDriver(dbDriver, InitialTagMap.Keys).error == InvalidDriver(ToLower(dbDriver))
  {
    assert InitialTagMap.Keys == {Orm, MongoDb};
    LowerMatches(dbDriver, Orm);
    LowerMatches(dbDriver, MongoDb);
  }

  /** Lower-casing yields a lower-case name exactly when the two agree ignoring case. */
  lemma LowerMatches(s: string, name: string)
    requires forall i :: 0 <= i < |name| ==> LowerChar(name[i]) == name[i]
    ensures ToLower(s) == name <==> EqualsIgnoreCase(s, name)
  {
    if EqualsIgnoreCase(s, name) {
      assert forall i :: 0 <= i < |s| ==> ToLower(s)[i] == name[i];
    }
  }

  /** The adapter class and the subscriber tag are looked up with the same key. */
  lemma SetupAgrees(dbDriver: string, versionId: Option<int>)
    ensures var tags := TagMapFor(InitialTagMap, versionId);
      match SelectDriver(dbDriver, tags)
      case Err(e) => e == InvalidDriver(ToLower(dbDriver))
      case Ok(s) =>
        && s.driver == ToLower(dbDriver)
        && (s.driver == Orm ==> s.adapterClass == AdapterMap[Orm] && s.subscriberTag == OrmSubscriberTag)
        && (s.driver == MongoDb ==>
              && s.adapterClass == AdapterMap[MongoDb]
              && (s.subscriberTag == LegacyMongoDbSubscriberTag <==> IsLegacyKernel(versionId)))
  {
  }

  /** Mixed case is accepted. */
  lemma MixedCaseAccepted()
    ensures ValidateDriver("ORM", InitialTagMap.Keys) == Ok(Orm)
    ensures ValidateDriver("MongoDB", InitialTagMap.Keys) == Ok(MongoDb)
  {
    assert ToLower("ORM") == Orm;
    assert ToLower("MongoDB") == MongoDb;
  }

  /** An unknown driver is refused by its lower-cased name. */
  lemma UnknownDriverRefused()
    ensures ValidateDriver("Propel", InitialTagMap.Keys) == Err(InvalidDriver("propel"))
  {
    assert ToLower("Propel") == "propel";
  }
}
