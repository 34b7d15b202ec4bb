// PathObject: one word found by a search, with its categories and mission
// char count fixed at construction and the three marks the path manager
// sets on it while qualifying a result list. Its colours, images and
// tool tips are presentation and are not part of this model.
module PathObjects {
  import opened KkutuTypes

  class PathObject {
    const content: string
    const categories: WordCategories
    const missionCharCount: int
    var alreadyUsed: bool
    var excluded: bool
    var removeQueued: bool

    /** A new object, none of its marks set. */
    constructor(content: string, categories: WordCategories, missionCharCount: int)
      ensures this.content == content && this.categories == categories && this.missionCharCount == missionCharCount
      ensures !alreadyUsed && !excluded && !removeQueued
    {
      this.content := content;
      this.categories := categories;
      this.missionCharCount := missionCharCount;
      alreadyUsed, excluded, removeQueued := false, false, false;
    }

    /** MakeEndAvailable: the word is not yet an end word. */
    predicate MakeEndAvailable()
    {
      EndCategory !in categories
    }

    /** MakeAttackAvailable: the word is not yet an attack word. */
    predicate MakeAttackAvailable()
    {
      AttackCategory !in categories
    }

    /** MakeNormalAvailable: the word is an end word or an attack word. */
    predicate MakeNormalAvailable()
      ensures MakeNormalAvailable() <==> EndCategory in categories || AttackCategory in categories
    {
      !MakeEndAvailable() || !MakeAttackAvailable()
    }

    /** Decorations is strike-through when any mark is set. */
    predicate StruckThrough()
      reads this
    {
      alreadyUsed || excluded || removeQueued
    }
  }
}
