/** Flat records as the JSON files hold them: string keys mapped to string values. */
module Records {

  type Record = map<string, string>

  /** `record.get(key, default)` */
  function Get(r: Record, key: string, default: string): string {
    if key in r then r[key] else default
  }
}
