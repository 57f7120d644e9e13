/** Optional values: a JavaScript `undefined`, an absent route parameter, a
    `findIndex` that found nothing. */
module Wrappers {

  datatype Option<+T> = None | Some(value: T)
}
