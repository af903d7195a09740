/**
 * `Heartbeat` and its `Builder`. A heartbeat is an immutable record of ten nullable fields;
 * `None` stands for `null`. The builder is a mutable object whose setters assign one field
 * each and return the builder itself, so that calls can be chained.
 */
module Heartbeats {
  import opened Wrappers
  import opened Numbers

  /** The ten fields of a heartbeat; the datatype's destructors are its getters. */
  datatype Heartbeat = Heartbeat(
    entity: Option<string>,
    lineCount: Option<Int32>,
    lineNumber: Option<Int32>,
    cursorPosition: Option<Int32>,
    timestamp: Option<Decimal4>,
    isWrite: Option<bool>,
    isUnsavedFile: Option<bool>,
    project: Option<string>,
    language: Option<string>,
    isBuilding: Option<bool>)

  /** The heartbeat whose every field is `null`. */
  const Blank: Heartbeat := Heartbeat(None, None, None, None, None, None, None, None, None, None)

  /** `Heartbeat.Builder` */
  class Builder {
    var entity: Option<string>
    var lineCount: Option<Int32>
    var lineNumber: Option<Int32>
    var cursorPosition: Option<Int32>
    var timestamp: Option<Decimal4>
    var isWrite: Option<bool>
    var isUnsavedFile: Option<bool>
    var project: Option<string>
    var language: Option<string>
    var isBuilding: Option<bool>

    /** The ten fields as they stand, read as a heartbeat. */
    function Fields(): Heartbeat
      reads this
    {
      Heartbeat(entity, lineCount, lineNumber, cursorPosition, timestamp,
                isWrite, isUnsavedFile, project, language, isBuilding)
    }

    /** `new Builder()`: every field starts out `null`. */
    constructor ()
      ensures Fields() == Blank
    {
      entity, lineCount, lineNumber, cursorPosition, timestamp := None, None, None, None, None;
      isWrite, isUnsavedFile, project, language, isBuilding := None, None, None, None, None;
    }

    method SetEntity(value: Option<string>) returns (self: Builder)
      modifies this
      ensures self == this && Fields() == old(Fields()).(entity := value)
    {
      entity := value;
      self := this;
    }

    method SetLineCount(value: Option<Int32>) returns (self: Builder)
      modifies this
      ensures self == this && Fields() == old(Fields()).(lineCount := value)
    {
      lineCount := value;
      self := this;
    }

    method SetLineNumber(value: Option<Int32>) returns (self: Builder)
      modifies this
      ensures self == this && Fields() == old(Fields()).(lineNumber := value)
    {
      lineNumber := value;
      self := this;
    }

    method SetCursorPosition(value: Option<Int32>) returns (self: Builder)
      modifies this
      ensures self == this && Fields() == old(Fields()).(cursorPosition := value)
    {
      cursorPosition := value;
      self := this;
    }

    method SetTimestamp(value: Option<Decimal4>) returns (self: Builder)
      modifies this
      ensures self == this && Fields() == old(Fields()).(timestamp := value)
    {
      timestamp := value;
      self := this;
    }

    method SetWrite(value: Option<bool>) returns (self: Builder)
      modifies this
      ensures self == this && Fields() == old(Fields()).(isWrite := value)
    {
      isWrite := value;
      self := this;
    }

    method SetUnsavedFile(value: Option<bool>) returns (self: Builder)
      modifies this
      ensures self == this && Fields() == old(Fields()).(isUnsavedFile := value)
    {
      isUnsavedFile := value;
      self := this;
    }

    method SetProject(value: Option<string>) returns (self: Builder)
      modifies this
      ensures self == this && Fields() == old(Fields()).(project := value)
    {
      project := value;
      self := this;
    }

    method SetLanguage(value: Option<string>) returns (self: Builder)
      modifies this
      ensures self == this && Fields() == old(Fields()).(language := value)
    {
      language := value;
      self := this;
    }

    method SetBuilding(value: Option<bool>) returns (self: Builder)
      modifies this
      ensures self == this && Fields() == old(Fields()).(isBuilding := value)
    {
      isBuilding := value;
      self := this;
    }

    /** `build()`: copies the ten fields as they are, without checking any of them. */
    method Build() returns (h: Heartbeat)
      ensures h.entity == entity && h.lineCount == lineCount && h.lineNumber == lineNumber
      ensures h.cursorPosition == cursorPosition && h.timestamp == timestamp
      ensures h.isWrite == isWrite && h.isUnsavedFile == isUnsavedFile
      ensures h.project == project && h.language == language && h.isBuilding == isBuilding
    {
      h := Heartbeat(entity, lineCount, lineNumber, cursorPosition, timestamp,
                     isWrite, isUnsavedFile, project, language, isBuilding);
    }
  }

  /** `build()` on a fresh builder succeeds: a heartbeat without entity or timestamp can be built. */
  method BuildUnset() returns (h: Heartbeat)
    ensures h.entity.None? && h.timestamp.None?
    ensures h == Blank
  {
    var b := new Builder();
    h := b.Build();
  }

  /** Of two calls of one setter the second wins, and the other fields are untouched. */
  method SetTwice(b: Builder, first: Option<string>, second: Option<string>)
    modifies b
    ensures b.Fields() == old(b.Fields()).(project := second)
  {
    var same := b.SetProject(first);
    same := same.SetProject(second);
  }

  /** A built heartbeat is a value: changing the builder afterwards leaves it as it was. */
  method BuildThenChange(b: Builder, entity: Option<string>) returns (h: Heartbeat)
    modifies b
    ensures h == old(b.Fields())
    ensures b.Fields() == h.(entity := entity)
  {
    h := b.Build();
    var same := b.SetEntity(entity);
  }
}
