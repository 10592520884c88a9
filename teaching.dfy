/** The object-oriented teaching examples: class counters of cars and people,
    a bank account with guarded deposit and withdraw, rectangles, vectors, a
    student's marks and an employee directory kept in a JSON file. Money is
    whole cents. A Python class attribute (`Car.car_count`,
    `Person.number_of_people`) is an object of its own here, passed to the
    constructors that update it. */
module Teaching {
  import opened Store

  // ---------------------------------------------------------------------
  // Cars and their counter

  /** The class attribute `Car.car_count`, which starts at 0. */
  class CarCounter {
    var carCount: nat

    constructor ()
      ensures carCount == 0
    {
      carCount := 0;
    }
  }

  class Car {
    const brand: string
    const model: string
    const year: int

    /** `Car.__init__`: every construction counts one more car. */
    constructor (counter: CarCounter, brand: string, model: string, year: int)
      modifies counter
      ensures this.brand == brand && this.model == model && this.year == year
      ensures counter.carCount == old(counter.carCount) + 1
    {
      this.brand := brand;
      this.model := model;
      this.year := year;
      counter.carCount := counter.carCount + 1;
    }
  }

  // ---------------------------------------------------------------------
  // People and their counter

  /** The class attribute `Person.number_of_people`, which starts at 0. */
  class PersonCounter {
    var numberOfPeople: nat

    constructor ()
      ensures numberOfPeople == 0
    {
      numberOfPeople := 0;
    }

    /** `Person.count_people`: one more person, and the new count returned. */
    method CountPeople() returns (n: nat)
      modifies this
      ensures numberOfPeople == old(numberOfPeople) + 1
      ensures n == numberOfPeople
    {
      numberOfPeople := numberOfPeople + 1;
      n := numberOfPeople;
    }
  }

  class Person {
    const name: string
    const age: int

    /** `Person.__init__`, which counts itself through `count_people`. */
    constructor (counter: PersonCounter, name: string, age: int)
      modifies counter
      ensures this.name == name && this.age == age
      ensures counter.numberOfPeople == old(counter.numberOfPeople) + 1
    {
      this.name := name;
      this.age := age;
      var _ := counter.CountPeople();
    }
  }

  /** `Person.is_adult`: an adult from the 18th birthday on. */
  function IsAdult(age: int): (adult: bool)
    ensures adult <==> 18 <= age
  {
    age >= 18
  }

  /** The adult threshold is the 18th birthday: 17 is not adult, 18 is, and
      growing older never makes an adult a minor again. */
  lemma AdultThreshold(a: int, b: int)
    ensures !IsAdult(17) && IsAdult(18)
    ensures IsAdult(a) && a <= b ==> IsAdult(b)
  {
  }

  // ---------------------------------------------------------------------
  // The bank account

  class BankAccount {
    const owner: string
    var balance: int

    constructor (owner: string, initialBalance: int)
      ensures this.owner == owner && balance == initialBalance
    {
      this.owner := owner;
      balance := initialBalance;
    }

    /** The same constructor with `initial_balance` left at its default. */
    constructor Opened(owner: string)
      ensures this.owner == owner && balance == 0
    {
      this.owner := owner;
      balance := 0;
    }

    /** `deposit`: only a positive amount changes the balance, raising it by
        exactly that amount. */
    method Deposit(amount: int)
      modifies this
      ensures balance != old(balance) <==> amount > 0
      ensures balance == old(balance) + (if amount > 0 then amount else 0)
      ensures balance >= old(balance)
    {
      if amount > 0 {
        balance := balance + amount;
      }
    }

    /** `withdraw`: it goes through iff `0 < amount <= balance`, lowering the
        balance by exactly that amount, so a non-negative balance stays
        non-negative. */
    method Withdraw(amount: int)
      modifies this
      ensures balance != old(balance) <==> 0 < amount <= old(balance)
      ensures balance == old(balance) - (if 0 < amount <= old(balance) then amount else 0)
      ensures old(balance) >= 0 ==> balance >= 0
    {
      if 0 < amount <= balance {
        balance := balance - amount;
      }
    }
  }

  // ---------------------------------------------------------------------
  // Rectangles and vectors

  datatype Rectangle = Rectangle(length: int, width: int)

  /** `Rectangle.area`: never negative for non-negative sides, and zero
      exactly when a side is. */
  function Area(r: Rectangle): (a: int)
    ensures r.length >= 0 && r.width >= 0 ==> a >= 0
    ensures a == 0 <==> r.length == 0 || r.width == 0
  {
    r.length * r.width
  }

  datatype Vector = Vector(x: int, y: int)

  /** `Vector.__add__`: a new vector, component by component, from which
      taking `w` away again gives back `v`. */
  function Add(v: Vector, w: Vector): (sum: Vector)
    ensures sum.x - w.x == v.x && sum.y - w.y == v.y
  {
    Vector(v.x + w.x, v.y + w.y)
  }

  /** Vector addition is commutative and associative, with the zero vector
      as its identity. */
  lemma AddLaws(u: Vector, v: Vector, w: Vector)
    ensures Add(v, w) == Add(w, v)
    ensures Add(Add(u, v), w) == Add(u, Add(v, w))
    ensures Add(v, Vector(0, 0)) == v
  {
  }

  // ---------------------------------------------------------------------
  // Students

  class Student {
    const name: string
    const age: int
    var marks: map<string, int>

    constructor (name: string, age: int, marks: map<string, int>)
      ensures this.name == name && this.age == age && this.marks == marks
    {
      this.name := name;
      this.age := age;
      this.marks := marks;
    }

    /** `add_marks`: the subject gets the score, whether or not it had one;
        no other subject changes. */
    method AddMarks(subject: string, score: int)
      modifies this
      ensures marks.Keys == old(marks).Keys + {subject}
      ensures marks[subject] == score
      ensures forall s :: s in old(marks) && s != subject ==> marks[s] == old(marks)[s]
    {
      marks := marks[subject := score];
    }

    /** `update_marks`: only a subject already present gets the new score;
        no subject is ever added. */
    method UpdateMarks(subject: string, newScore: int)
      modifies this
      ensures marks.Keys == old(marks).Keys
      ensures subject in old(marks) ==> marks[subject] == newScore
      ensures subject !in old(marks) ==> marks == old(marks)
      ensures forall s :: s in old(marks) && s != subject ==> marks[s] == old(marks)[s]
    {
      if subject in marks {
        marks := marks[subject := newScore];
      }
    }
  }

  // ---------------------------------------------------------------------
  // Employees

  /** The record `store_details` writes for an employee. */
  datatype EmployeeRecord = EmployeeRecord(name: string, id: string, salary: int)

  /** The `employee_data.json` file: a map from employee id to record. */
  class EmployeeFile {
    var contents: StoredFile<map<string, EmployeeRecord>>

    constructor (contents: StoredFile<map<string, EmployeeRecord>>)
      ensures this.contents == contents
    {
      this.contents := contents;
    }
  }

  /** What `store_details` reads: the decoded map, or an empty one when the
      file is absent, empty or corrupted. */
  function LoadEmployees(f: StoredFile<map<string, EmployeeRecord>>): (m: map<string, EmployeeRecord>)
    ensures f.Parsed? ==> m == f.doc
    ensures !f.Parsed? ==> m == map[]
  {
    Load(f, map[])
  }

  /** The map `store_details` writes back: the loaded one with the entry for
      the record's id inserted or replaced. */
  function Upsert(f: StoredFile<map<string, EmployeeRecord>>, r: EmployeeRecord): (m: map<string, EmployeeRecord>)
    ensures m.Keys == LoadEmployees(f).Keys + {r.id}
    ensures m[r.id] == r
    ensures forall k :: k in LoadEmployees(f) && k != r.id ==> m[k] == LoadEmployees(f)[k]
  {
    LoadEmployees(f)[r.id := r]
  }

  /** Storing the same record again changes nothing. */
  lemma UpsertIdempotent(f: StoredFile<map<string, EmployeeRecord>>, r: EmployeeRecord)
    ensures Upsert(Parsed(Upsert(f, r)), r) == Upsert(f, r)
  {
    var m := Upsert(f, r);
    assert m[r.id := r] == m;
  }

  class Employee {
    const name: string
    const id: string
    var salary: int

    constructor (name: string, id: string, salary: int)
      ensures this.name == name && this.id == id && this.salary == salary
    {
      this.name := name;
      this.id := id;
      this.salary := salary;
    }

    /** `store_details`: read the file, insert or replace this employee's
        entry, write the whole map back. */
    method StoreDetails(file: EmployeeFile)
      modifies file
      ensures file.contents == Parsed(Upsert(old(file.contents), EmployeeRecord(name, id, salary)))
    {
      var all := LoadEmployees(file.contents);
      all := all[id := EmployeeRecord(name, id, salary)];
      file.contents := Parsed(all);
    }
  }

  /** The script's own run: two cars and two people counted, one account
      moved. */
  method TeachingScenario()
  {
    var cars := new CarCounter();
    var camry := new Car(cars, "Toyota", "Camry", 2020);
    var mustang := new Car(cars, "Ford", "Mustang", 1969);
    assert cars.carCount == 2;

    var people := new PersonCounter();
    var jenna := new Person(people, "Jenna", 25);
    var kyle := new Person(people, "Kyle", 16);
    assert people.numberOfPeople == 2;
    assert IsAdult(jenna.age) && !IsAdult(kyle.age);

    var account := new BankAccount("Alice", 50000);
    account.Deposit(10050);
    account.Withdraw(5000);
    assert account.balance == 55050;
    account.Withdraw(100000);
    assert account.balance == 55050;
  }

  /** One student's marks added and updated; a subject not yet graded is not
      updated. */
  method StudentScenario()
  {
    var student := new Student("Michael", 18, map["Math" := 85, "Physics" := 78]);
    student.AddMarks("Chemistry", 92);
    student.UpdateMarks("Physics", 85);
    student.UpdateMarks("Biology", 70);
    assert "Biology" !in student.marks && student.marks["Physics"] == 85;
  }

  /** An account opened without a balance starts at zero and refuses a
      withdrawal. */
  method OpenedAccountScenario()
  {
    var empty := new BankAccount.Opened("Bob");
    empty.Withdraw(100);
    assert empty.balance == 0;
  }

  /** The script's vector sum and rectangle area. */
  method ShapesScenario()
  {
    assert Add(Vector(2, 5), Vector(3, -1)) == Vector(5, 4);
    assert Area(Rectangle(4, 6)) == 24;
  }
}
