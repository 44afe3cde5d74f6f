/** The one record of the app: a scheduled yoga class. */
module YogaData {
  import opened Wrappers

  /**
   * One class session. `id` is 0 until the local store assigns one;
   * `price` is kept as the text the app shows for it; `classType` is the
   * class style (called `type` in the app).
   */
  datatype YogaClass = YogaClass(
    id: int,
    dayOfWeek: string,
    time: string,
    teacher: string,
    capacity: int,
    price: string,
    duration: int,
    classType: string,
    description: Option<string>)
}
