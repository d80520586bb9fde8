/** JavaScript's `undefined` (from `Array.prototype.find`), `NaN` (from
    `parseInt`) and a part of a page that is not rendered, as an explicit
    absent value. */
module Optional {

  datatype Option<+T> = None | Some(value: T)
}
