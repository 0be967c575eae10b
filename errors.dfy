/** The exceptions the extension throws while loading its configuration. */
module Errors {
  import opened PhpStrings

  datatype Error =
      /** `\InvalidArgumentException` for an unknown `db_driver`; carries the lower-cased value. */
    | InvalidDriver(driver: string)
      /** `\RuntimeException` for an `@Bundle` path naming a bundle the kernel does not have. */
    | UnknownBundle(bundle: string, available: seq<string>)
      /** `\RuntimeException` when the file cache directory cannot be created. */
    | CacheDirectoryNotCreated(dir: string)
      /** The `Error` PHP 8 throws for `new` on a class that does not exist. */
    | ClassNotFound(className: string)
  {
    /** The exception's message, as the extension formats it. */
    function Message(): (m: string)
      ensures InvalidDriver? ==> Contains(m, driver)
      ensures UnknownBundle? ==> Contains(m, bundle)
      ensures UnknownBundle? ==> forall k :: 0 <= k < |available| ==> Contains(m, available[k])
      ensures CacheDirectoryNotCreated? ==> Contains(m, dir)
      ensures ClassNotFound? ==> Contains(m, className)
    {
      match this
      case InvalidDriver(d) =>
        var m := "Invalid \"db_driver\" configuration option specified: \"" + d + "\"";
        Mentions("Invalid \"db_driver\" configuration option specified: \"", d, "\"");
        m
      case UnknownBundle(b, names) =>
        var list := Join(names, ", ");
        var head := "The bundle \"" + b + "\" has not been registered with AppKernel. Available bundles: ";
        Mentions("The bundle \"", b, "\" has not been registered with AppKernel. Available bundles: " + list);
        assert head + list == "The bundle \"" + b + ("\" has not been registered with AppKernel. Available bundles: " + list);
        forall k | 0 <= k < |names| ensures Contains(head + list, names[k]) {
          JoinContainsParts(names, ", ", k);
          ContainsExtended(head, list, "", names[k]);
          assert head + list + "" == head + list;
        }
        head + list
      case CacheDirectoryNotCreated(d) =>
        Mentions("Could not create cache directory \"", d, "\".");
        "Could not create cache directory \"" + d + "\"."
      case ClassNotFound(c) =>
        Mentions("Class \"", c, "\" not found");
        "Class \"" + c + "\" not found"
    }
  }

  lemma Mentions(a: string, t: string, b: string)
    ensures Contains(a + t + b, t)
  {
    assert OccursAt(a + t + b, t, |a|);
  }
}
