/** The property-list values that the atlas description is read into.  Only
    the kinds the loader inspects are distinguished; arrays, numbers, dates,
    data and uids are all `Other`. */
module Plist {
  datatype Value =
    | Dictionary(entries: map<string, Value>)
    | String(text: string)
    | Boolean(flag: bool)
    | Other
}
